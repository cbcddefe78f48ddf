/**
 The work-item custody spine: claim, lease, fence, reclaim, dispatch marker, and
 the background sweeper.

 Every command is one committed SQL transaction or statement, so a history is a
 sequence of commands in commit order, issued by any number of clients. The wall
 clock only moves by `Tick`. A command that matches no row replies `Refused` and
 leaves the tables alone.
 */
module Custody {
  import opened Basics

  datatype Lifecycle = Open | Claimed | Done

  /** The single claim row of an item; absent columns are SQL NULL. */
  datatype Claim = Claim(
    holder: Option<string>, run: Option<string>,
    fence: nat, lease: Option<int>, fencedAt: Option<int>)

  datatype Row = Row(state: Lifecycle, claim: Claim)

  /** A call to the resource-layer fencer: the recorded holder and run it was told to kill. */
  datatype FenceCall = FenceCall(item: nat, holder: Option<string>, run: Option<string>)

  /**
   The tables, the lease length, and the wall clock. `markers` is the dispatch table keyed by run.
   `fenced` lists the calls to the fencer, which no rollback takes back.
   */
  datatype Db = Db(
    clock: int, interval: nat, items: map<nat, Row>, markers: map<string, string>, fenced: seq<FenceCall>)

  /** The resource-layer fencer of a reclaim: not wired, or wired and answering. */
  datatype Fencer = NotWired | Confirms | CannotConfirm

  /**
   `locked` is the set of rows other transactions hold when SKIP LOCKED runs.
   `SweepExpired(batch)` visits any set of rows: the LIMIT, the lease order and the
   locked rows only decide which. `RedriveRead` is the first statement of a redrive;
   the second one is an ordinary `Acquire`. A dispatch is a `DispatchInsert` and then a `DispatchRead`.
   */
  datatype Command =
    | Tick(elapsed: nat)
    | ClaimNext(locked: set<nat>, principal: string, run: string)
    | Acquire(item: nat, principal: string, run: string)
    | Renew(item: nat, principal: string, fence: nat)
    | Complete(item: nat, principal: string, fence: nat)
    | RedriveRead(item: nat, principal: string, run: string, fence: nat)
    | DispatchInsert(item: nat, principal: string, run: string, fence: nat, task: string)
    | DispatchRead(run: string)
    | ReclaimFenced(item: nat, principal: string, run: string, fencer: Fencer)
    | SweepExpired(batch: set<nat>)

  datatype Reply =
    | Refused
    | Accepted
    | Granted(item: nat, fence: nat)
    | Marker(task: string)
    | Reclaimed(items: set<nat>)

  // ---------- the statements ----------

  /** The acquire guard: holder IS NULL OR lease_expires_at < clock_timestamp(). */
  ghost predicate Free(c: Claim, clock: int) {
    c.holder.None? || (c.lease.Some? && c.lease.value < clock)
  }

  /** The custody predicate of renew, complete and dispatch. */
  ghost predicate Live(db: Db, item: nat, principal: string, fence: nat) {
    && item in db.items
    && var c := db.items[item].claim;
    && c.holder == Some(principal) && c.fence == fence
    && c.lease.Some? && c.lease.value > db.clock
  }

  /** The row of a lapsed holder the sweeper returns to the pool. */
  ghost predicate Due(db: Db, item: nat) {
    && item in db.items
    && db.items[item].state != Done
    && var c := db.items[item].claim;
    && c.holder.Some? && c.lease.Some? && c.lease.value < db.clock
  }

  /** Install a holder under a fresh fence, then mark the item; a done item rolls the bump back. */
  ghost function AcquireTx(db: Db, item: nat, principal: string, run: string): Option<Db> {
    if item !in db.items || !Free(db.items[item].claim, db.clock) || db.items[item].state == Done then None
    else
      var c := db.items[item].claim.(
        holder := Some(principal), run := Some(run),
        fence := db.items[item].claim.fence + 1,
        lease := Some(db.clock + db.interval));
      Some(db.(items := db.items[item := Row(Claimed, c)]))
  }

  ghost function Grant(db: Db, item: nat, principal: string, run: string): (Db, Reply) {
    match AcquireTx(db, item, principal, run)
    case None => (db, Refused)
    case Some(after) => (after, Granted(item, after.items[item].claim.fence))
  }

  ghost function OpenItems(db: Db): set<nat> {
    set i | i in db.items && db.items[i].state == Open
  }

  ghost function Stamp(db: Db, item: nat): Db {
    if item !in db.items then db
    else
      var row := db.items[item];
      db.(items := db.items[item := row.(claim := row.claim.(fencedAt := Some(db.clock)))])
  }

  /** The fencer is told whom the claim row names, lease or no lease; a missing row names nobody. */
  ghost function CallOn(db: Db, item: nat): FenceCall {
    if item in db.items then FenceCall(item, db.items[item].claim.holder, db.items[item].claim.run)
    else FenceCall(item, None, None)
  }

  ghost function Swept(db: Db, row: Row): Row {
    Row(Open, Claim(None, None, row.claim.fence + 1, None, Some(db.clock)))
  }

  ghost function Sweep(db: Db, batch: set<nat>): Db {
    db.(items := map i | i in db.items ::
      if i in batch && Due(db, i) then Swept(db, db.items[i]) else db.items[i])
  }

  ghost function Step(db: Db, cmd: Command): (Db, Reply) {
    match cmd
    case Tick(elapsed) => (db.(clock := db.clock + elapsed), Accepted)
    case ClaimNext(locked, principal, run) =>
      var candidates := OpenItems(db) - locked;
      if candidates == {} then (db, Refused) else Grant(db, Least(candidates), principal, run)
    case Acquire(item, principal, run) => Grant(db, item, principal, run)
    case Renew(item, principal, fence) =>
      if Live(db, item, principal, fence) && db.items[item].state != Done then
        var row := db.items[item];
        var c := row.claim.(lease := Some(db.clock + db.interval));
        (db.(items := db.items[item := row.(claim := c)]), Accepted)
      else (db, Refused)
    case Complete(item, principal, fence) =>
      if Live(db, item, principal, fence) && db.items[item].state == Claimed then
        (db.(items := db.items[item := db.items[item].(state := Done)]), Accepted)
      else (db, Refused)
    case RedriveRead(item, principal, run, fence) =>
      if Live(db, item, principal, fence) && db.items[item].claim.run == Some(run)
      then (db, Granted(item, fence)) else (db, Refused)
    case DispatchInsert(item, principal, run, fence, task) =>
      if run !in db.markers && Live(db, item, principal, fence) && db.items[item].claim.run == Some(run)
      then (db.(markers := db.markers[run := task]), Accepted) else (db, Accepted)
    case DispatchRead(run) => (db, if run in db.markers then Marker(db.markers[run]) else Refused)
    case ReclaimFenced(item, principal, run, fencer) =>
      var called := if fencer == NotWired then db else db.(fenced := db.fenced + [CallOn(db, item)]);
      if fencer == CannotConfirm then (called, Refused)
      else
        var (after, reply) := Grant(Stamp(called, item), item, principal, run);
        if reply == Refused then (called, Refused) else (after, reply)
    case SweepExpired(batch) =>
      (Sweep(db, batch), Reclaimed(set i | i in batch && Due(db, i)))
  }

  // ---------- histories ----------

  /** The tables after the first k commands. */
  ghost function StateAt(db: Db, cmds: seq<Command>, k: nat): Db
    requires k <= |cmds|
  {
    if k == 0 then db else Step(StateAt(db, cmds, k - 1), cmds[k - 1]).0
  }

  ghost function ReplyAt(db: Db, cmds: seq<Command>, k: nat): Reply
    requires k < |cmds|
  {
    Step(StateAt(db, cmds, k), cmds[k]).1
  }

  /** A freshly provisioned item: open, unheld, fence never issued. */
  ghost predicate Fresh(db: Db) {
    && db.markers == map[]
    && forall i | i in db.items :: db.items[i] == Row(Open, Claim(None, None, 0, None, None))
  }

  /** What every reachable table state keeps. */
  ghost predicate Inv(db: Db) {
    forall i | i in db.items :: RowOk(db.items[i])
  }

  ghost predicate RowOk(row: Row) {
    && (row.state == Open <==> row.claim.holder.None?)
    && (row.claim.holder.None? <==> row.claim.run.None?)
    && (row.claim.holder.None? <==> row.claim.lease.None?)
    && (row.claim.holder.Some? ==> row.claim.fence > 0)
  }

  ghost predicate HeldBy(db: Db, item: nat, principal: string, run: string, fence: nat) {
    && item in db.items
    && var c := db.items[item].claim;
    && c.holder == Some(principal) && c.run == Some(run) && c.fence == fence
  }

  /** Command k installed a new holder: the reply carries the fence it issued. */
  ghost predicate Issues(db: Db, cmds: seq<Command>, k: nat, item: nat, fence: nat)
    requires k < |cmds|
  {
    && IsGrant(cmds[k])
    && ReplyAt(db, cmds, k) == Granted(item, fence)
  }

  ghost predicate Reclaims(db: Db, cmds: seq<Command>, k: nat, item: nat)
    requires k < |cmds|
  {
    cmds[k].SweepExpired? && item in cmds[k].batch && Due(StateAt(db, cmds, k), item)
  }

  /** Command k bumps the fence of the item: a grant or a sweep. */
  ghost predicate Bumps(db: Db, cmds: seq<Command>, k: nat, item: nat)
    requires k < |cmds|
  {
    (exists f :: Issues(db, cmds, k, item, f)) || Reclaims(db, cmds, k, item)
  }

  ghost function BumpCount(db: Db, cmds: seq<Command>, k: nat, item: nat): nat
    requires k <= |cmds|
  {
    if k == 0 then 0
    else BumpCount(db, cmds, k - 1, item) + if Bumps(db, cmds, k - 1, item) then 1 else 0
  }

  ghost predicate Completes(db: Db, cmds: seq<Command>, k: nat, item: nat)
    requires k < |cmds|
  {
    cmds[k].Complete? && cmds[k].item == item && ReplyAt(db, cmds, k) == Accepted
  }

  // ---------- what one command does ----------

  /** No command adds, drops or corrupts a row. */
  lemma StepKeepsInv(db: Db, cmd: Command)
    requires Inv(db)
    ensures Inv(Step(db, cmd).0)
    ensures Step(db, cmd).0.items.Keys == db.items.Keys
  {
    KeysStep(db, cmd);
    forall i | i in Step(db, cmd).0.items ensures RowOk(Step(db, cmd).0.items[i]) {
      RowOkStep(db, cmd, i);
    }
  }

  lemma KeysStep(db: Db, cmd: Command)
    ensures Step(db, cmd).0.items.Keys == db.items.Keys
  {
  }

  lemma RowOkStep(db: Db, cmd: Command, item: nat)
    requires item in db.items && RowOk(db.items[item]) && item in Step(db, cmd).0.items
    ensures RowOk(Step(db, cmd).0.items[item])
  {
  }

  ghost predicate IsGrant(cmd: Command) {
    cmd.ClaimNext? || cmd.Acquire? || cmd.ReclaimFenced?
  }

  /** The five things a command can do to one row: nothing, extend its lease, finish it, re-issue it, sweep it. */
  ghost predicate RowMove(db: Db, cmd: Command, reply: Reply, item: nat, before: Row, after: Row) {
    || after == before
    || (&& cmd.Renew? && before.claim.lease.Some? && before.claim.lease.value > db.clock
        && after == before.(claim := before.claim.(lease := Some(db.clock + db.interval))))
    || (&& cmd.Complete? && cmd.item == item && cmd.fence == before.claim.fence && reply == Accepted
        && before.state == Claimed && after == before.(state := Done))
    || (&& IsGrant(cmd) && reply == Granted(item, after.claim.fence) && before.state != Done
        && after.state == Claimed && after.claim.fence == before.claim.fence + 1
        && after.claim.holder == Some(cmd.principal) && after.claim.run == Some(cmd.run))
    || (cmd.SweepExpired? && item in cmd.batch && Due(db, item) && after == Swept(db, before))
  }

  lemma RowStep(db: Db, cmd: Command, item: nat)
    requires Inv(db)
    ensures Step(db, cmd).0.items.Keys == db.items.Keys
    ensures item in db.items
        ==> RowMove(db, cmd, Step(db, cmd).1, item, db.items[item], Step(db, cmd).0.items[item])
  {
    StepKeepsInv(db, cmd);
  }

  /** A fence never falls, and rises by exactly one on a bump and not otherwise. */
  lemma FenceStep(db: Db, cmds: seq<Command>, k: nat, item: nat)
    requires k < |cmds| && item in StateAt(db, cmds, k).items
    ensures item in StateAt(db, cmds, k + 1).items
    ensures StateAt(db, cmds, k + 1).items[item].claim.fence
         == StateAt(db, cmds, k).items[item].claim.fence + if Bumps(db, cmds, k, item) then 1 else 0
    ensures forall f: nat | Issues(db, cmds, k, item, f) :: StateAt(db, cmds, k + 1).items[item].claim.fence == f
  {
    var pre, reply := StateAt(db, cmds, k), ReplyAt(db, cmds, k);
    FenceMove(pre, cmds[k], item);
    if IsGrant(cmds[k]) && reply.Granted? && reply.item == item {
      assert Issues(db, cmds, k, item, reply.fence);
    }
  }

  lemma FenceMove(db: Db, cmd: Command, item: nat)
    requires item in db.items
    ensures var (after, reply) := Step(db, cmd);
      && item in after.items
      && var granted := IsGrant(cmd) && reply.Granted? && reply.item == item;
      && var swept := cmd.SweepExpired? && item in cmd.batch && Due(db, item);
      && after.items[item].claim.fence == db.items[item].claim.fence + (if granted || swept then 1 else 0)
      && (granted ==> reply.fence == after.items[item].claim.fence)
  {
  }

  lemma {:induction false} InvAt(db: Db, cmds: seq<Command>, k: nat)
    requires Inv(db) && k <= |cmds|
    ensures Inv(StateAt(db, cmds, k))
    ensures StateAt(db, cmds, k).items.Keys == db.items.Keys
  {
    if k > 0 {
      InvAt(db, cmds, k - 1);
      StepKeepsInv(StateAt(db, cmds, k - 1), cmds[k - 1]);
    }
  }

  // ---------- whole histories ----------

  /** Conservation: the fence of an item is its first fence plus one per grant and per sweep. */
  lemma {:induction false} FenceCountsBumps(db: Db, cmds: seq<Command>, k: nat, item: nat)
    requires k <= |cmds| && item in db.items
    ensures item in StateAt(db, cmds, k).items
    ensures StateAt(db, cmds, k).items[item].claim.fence
         == db.items[item].claim.fence + BumpCount(db, cmds, k, item)
  {
    if k > 0 {
      FenceCountsBumps(db, cmds, k - 1, item);
      FenceStep(db, cmds, k - 1, item);
    }
  }

  lemma {:induction false} BumpCountGrows(db: Db, cmds: seq<Command>, j: nat, k: nat, item: nat)
    requires j <= k <= |cmds|
    ensures BumpCount(db, cmds, j, item) <= BumpCount(db, cmds, k, item)
    decreases k
  {
    if j < k { BumpCountGrows(db, cmds, j, k - 1, item); }
  }

  lemma FenceNeverFalls(db: Db, cmds: seq<Command>, j: nat, k: nat, item: nat)
    requires j <= k <= |cmds| && item in db.items
    ensures item in StateAt(db, cmds, j).items && item in StateAt(db, cmds, k).items
    ensures StateAt(db, cmds, j).items[item].claim.fence <= StateAt(db, cmds, k).items[item].claim.fence
  {
    FenceCountsBumps(db, cmds, j, item);
    FenceCountsBumps(db, cmds, k, item);
    BumpCountGrows(db, cmds, j, k, item);
  }

  lemma IssuedItemExists(db: Db, cmds: seq<Command>, k: nat, item: nat, fence: nat)
    requires Inv(db) && k < |cmds| && Issues(db, cmds, k, item, fence)
    ensures item in db.items
  {
    InvAt(db, cmds, k);
  }

  /** Fence tokens are issued in strictly increasing order, so no token is ever issued twice. */
  lemma IssuedFencesIncrease(db: Db, cmds: seq<Command>, j: nat, k: nat, item: nat, f: nat, g: nat)
    requires Inv(db) && j < k < |cmds|
    requires Issues(db, cmds, j, item, f) && Issues(db, cmds, k, item, g)
    ensures f < g
  {
    IssuedItemExists(db, cmds, j, item, f);
    FenceNeverFalls(db, cmds, 0, j, item);
    FenceStep(db, cmds, j, item);
    FenceNeverFalls(db, cmds, j + 1, k, item);
    FenceStep(db, cmds, k, item);
  }

  /** A grant happens only when nobody holds live custody of the item, under any fence. */
  lemma GrantExcludesLiveHolders(db: Db, cmds: seq<Command>, k: nat, item: nat, fence: nat)
    requires Inv(db) && k < |cmds| && Issues(db, cmds, k, item, fence)
    ensures forall p, f :: !Live(StateAt(db, cmds, k), item, p, f)
    ensures item in StateAt(db, cmds, k).items && StateAt(db, cmds, k).items[item].state != Done
  {
    InvAt(db, cmds, k);
    assert RowOk(StateAt(db, cmds, k).items[item]);
  }

  /** The principal and run a grant command acts for. */
  ghost predicate IssuedTo(db: Db, cmds: seq<Command>, k: nat, item: nat, fence: nat, principal: string, run: string)
    requires k < |cmds|
  {
    Issues(db, cmds, k, item, fence) && cmds[k].principal == principal && cmds[k].run == run
  }

  lemma GrantInstallsCaller(db: Db, cmds: seq<Command>, k: nat, item: nat, fence: nat)
    requires Inv(db) && k < |cmds| && Issues(db, cmds, k, item, fence)
    ensures HeldBy(StateAt(db, cmds, k + 1), item, cmds[k].principal, cmds[k].run, fence)
    ensures StateAt(db, cmds, k + 1).items[item].state == Claimed
    ensures StateAt(db, cmds, k + 1).items[item].claim.lease
         == Some(StateAt(db, cmds, k).clock + StateAt(db, cmds, k).interval)
  {
    GrantStep(StateAt(db, cmds, k), cmds[k], item, fence);
  }

  lemma GrantStep(db: Db, cmd: Command, item: nat, fence: nat)
    requires IsGrant(cmd) && Step(db, cmd).1 == Granted(item, fence)
    ensures var after := Step(db, cmd).0;
      && HeldBy(after, item, cmd.principal, cmd.run, fence) && after.items[item].state == Claimed
      && after.items[item].claim.lease == Some(db.clock + db.interval)
  {
  }

  /** Holding a row does not come out of nowhere: a command that did not issue the token kept it. */
  lemma HeldStep(db: Db, cmds: seq<Command>, k: nat, item: nat, p: string, r: string, f: nat)
    requires Inv(db) && k < |cmds| && HeldBy(StateAt(db, cmds, k + 1), item, p, r, f)
    ensures HeldBy(StateAt(db, cmds, k), item, p, r, f) || IssuedTo(db, cmds, k, item, f, p, r)
  {
    InvAt(db, cmds, k);
    RowStep(StateAt(db, cmds, k), cmds[k], item);
  }

  /** Whoever holds an item at fence f was issued f by exactly one earlier grant, to that very run. */
  lemma {:induction false} HolderWasIssuedItsFence(db: Db, cmds: seq<Command>, k: nat, item: nat, p: string, r: string, f: nat)
      returns (j: nat)
    requires Fresh(db) && k <= |cmds| && HeldBy(StateAt(db, cmds, k), item, p, r, f)
    ensures j < k && IssuedTo(db, cmds, j, item, f, p, r)
    ensures forall i: nat | i < k && i != j :: !Issues(db, cmds, i, item, f)
  {
    HeldStep(db, cmds, k - 1, item, p, r, f);
    if IssuedTo(db, cmds, k - 1, item, f, p, r) {
      j := k - 1;
    } else {
      j := HolderWasIssuedItsFence(db, cmds, k - 1, item, p, r, f);
    }
    forall i: nat | i < k && i != j ensures !Issues(db, cmds, i, item, f) {
      if Issues(db, cmds, i, item, f) {
        if i < j { IssuedFencesIncrease(db, cmds, i, j, item, f, f); }
        else { IssuedFencesIncrease(db, cmds, j, i, item, f, f); }
      }
    }
  }

  /**
   An accepted renewal or completion rests on unbroken custody: the caller was issued that fence
   by an earlier grant, and nobody was granted the item, nor was it swept, in between.
   */
  lemma AcceptedWriteHasUnbrokenCustody(db: Db, cmds: seq<Command>, k: nat) returns (j: nat, run: string)
    requires Fresh(db) && k < |cmds| && (cmds[k].Renew? || cmds[k].Complete?)
    requires ReplyAt(db, cmds, k) == Accepted
    ensures j < k && IssuedTo(db, cmds, j, cmds[k].item, cmds[k].fence, cmds[k].principal, run)
    ensures forall i: nat | j < i < k :: !Bumps(db, cmds, i, cmds[k].item)
  {
    var item, f := cmds[k].item, cmds[k].fence;
    InvAt(db, cmds, k);
    run := StateAt(db, cmds, k).items[item].claim.run.value;
    j := HolderWasIssuedItsFence(db, cmds, k, item, cmds[k].principal, run, f);
    IssuedIsCurrent(db, cmds, j, item, f);
    forall i: nat | j < i < k ensures !Bumps(db, cmds, i, item) {
      SameFenceNoBump(db, cmds, j + 1, i, k, item);
    }
  }

  lemma SameFenceNoBump(db: Db, cmds: seq<Command>, j: nat, i: nat, k: nat, item: nat)
    requires Inv(db) && j <= i < k <= |cmds| && item in StateAt(db, cmds, j).items && item in StateAt(db, cmds, k).items
    requires StateAt(db, cmds, j).items[item].claim.fence == StateAt(db, cmds, k).items[item].claim.fence
    ensures !Bumps(db, cmds, i, item)
  {
    InvAt(db, cmds, j);
    FenceNeverFalls(db, cmds, j, i, item);
    FenceStep(db, cmds, i, item);
    FenceNeverFalls(db, cmds, i + 1, k, item);
  }

  /**
   Zombie lockout: once the fence of an item has moved past f, the holder of f can never again renew,
   complete or record a dispatch marker, whatever happens later. Its redrive never gets f back: the
   re-read is refused, and the acquire it falls through to, like every other grant, issues a larger fence.
   */
  lemma StaleFenceIsLockedOut(db: Db, cmds: seq<Command>, j: nat, k: nat, item: nat, f: nat)
    requires Inv(db) && j <= k < |cmds| && item in StateAt(db, cmds, j).items
    requires StateAt(db, cmds, j).items[item].claim.fence > f
    ensures cmds[k].Renew? && cmds[k].item == item && cmds[k].fence == f ==> ReplyAt(db, cmds, k) == Refused
    ensures cmds[k].Complete? && cmds[k].item == item && cmds[k].fence == f ==> ReplyAt(db, cmds, k) == Refused
    ensures cmds[k].RedriveRead? && cmds[k].item == item && cmds[k].fence == f ==> ReplyAt(db, cmds, k) == Refused
    ensures cmds[k].DispatchInsert? && cmds[k].item == item && cmds[k].fence == f
        ==> StateAt(db, cmds, k + 1) == StateAt(db, cmds, k)
    ensures forall g: nat | Issues(db, cmds, k, item, g) :: g > f
  {
    InvAt(db, cmds, j);
    FenceNeverFalls(db, cmds, j, k, item);
    FenceStep(db, cmds, k, item);
  }

  lemma {:induction false} DoneIsForever(db: Db, cmds: seq<Command>, j: nat, k: nat, item: nat)
    requires Inv(db) && j <= k <= |cmds|
    requires item in StateAt(db, cmds, j).items && StateAt(db, cmds, j).items[item].state == Done
    ensures item in StateAt(db, cmds, k).items && StateAt(db, cmds, k).items[item].state == Done
    ensures StateAt(db, cmds, k).items[item].claim.fence == StateAt(db, cmds, j).items[item].claim.fence
    decreases k
  {
    if j < k {
      DoneIsForever(db, cmds, j, k - 1, item);
      InvAt(db, cmds, k - 1);
      DoneStep(StateAt(db, cmds, k - 1), cmds[k - 1], item);
    }
  }

  lemma DoneStep(db: Db, cmd: Command, item: nat)
    requires item in db.items && db.items[item].state == Done
    ensures item in Step(db, cmd).0.items && Step(db, cmd).0.items[item].state == Done
    ensures Step(db, cmd).0.items[item].claim.fence == db.items[item].claim.fence
  {
  }

  lemma CompletionFinishes(db: Db, cmds: seq<Command>, k: nat, item: nat)
    requires Inv(db) && k < |cmds| && Completes(db, cmds, k, item)
    ensures item in StateAt(db, cmds, k).items && item in StateAt(db, cmds, k + 1).items
    ensures StateAt(db, cmds, k).items[item].state == Claimed
    ensures StateAt(db, cmds, k + 1).items[item].state == Done
    ensures StateAt(db, cmds, k).items[item].claim.fence == cmds[k].fence
    ensures StateAt(db, cmds, k + 1).items[item].claim.fence == cmds[k].fence
  {
    InvAt(db, cmds, k);
  }

  lemma IssuedIsCurrent(db: Db, cmds: seq<Command>, k: nat, item: nat, f: nat)
    requires Inv(db) && k < |cmds| && Issues(db, cmds, k, item, f)
    ensures item in db.items && item in StateAt(db, cmds, k + 1).items
    ensures StateAt(db, cmds, k + 1).items[item].claim.fence == f
  {
    InvAt(db, cmds, k);
    InvAt(db, cmds, k + 1);
    FenceStep(db, cmds, k, item);
  }

  /**
   An item is completed at most once. The completion uses the newest fence ever issued for
   the item, and no grant or sweep of it follows.
   */
  lemma CompletionIsFinal(db: Db, cmds: seq<Command>, j: nat, k: nat, item: nat)
    requires Inv(db) && j < k < |cmds| && Completes(db, cmds, j, item)
    ensures !Completes(db, cmds, k, item)
    ensures !Bumps(db, cmds, k, item)
  {
    CompletionFinishes(db, cmds, j, item);
    DoneIsForever(db, cmds, j + 1, k, item);
    DoneIsForever(db, cmds, j + 1, k + 1, item);
    FenceStep(db, cmds, k, item);
    if Completes(db, cmds, k, item) { CompletionFinishes(db, cmds, k, item); }
  }

  lemma CompletionUsesNewestFence(db: Db, cmds: seq<Command>, j: nat, k: nat, item: nat, f: nat)
    requires Inv(db) && j < |cmds| && k < |cmds|
    requires Completes(db, cmds, j, item) && Issues(db, cmds, k, item, f)
    ensures k < j && f <= cmds[j].fence
  {
    if k > j { CompletionIsFinal(db, cmds, j, k, item); }
    CompletionFinishes(db, cmds, j, item);
    IssuedIsCurrent(db, cmds, k, item, f);
    FenceNeverFalls(db, cmds, k + 1, j, item);
  }

  lemma {:induction false} DoneWasCompleted(db: Db, cmds: seq<Command>, k: nat, item: nat) returns (j: nat)
    requires Fresh(db) && k <= |cmds| && item in db.items
    requires item in StateAt(db, cmds, k).items && StateAt(db, cmds, k).items[item].state == Done
    ensures j < k && Completes(db, cmds, j, item)
  {
    j := k - 1;
    if !Completes(db, cmds, j, item) {
      InvAt(db, cmds, j);
      OnlyCompletionFinishes(StateAt(db, cmds, j), cmds[j], item);
      j := DoneWasCompleted(db, cmds, j, item);
    }
  }

  /** An item is done exactly when some command of the history completed it. */
  lemma DoneIffCompleted(db: Db, cmds: seq<Command>, k: nat, item: nat)
    requires Fresh(db) && k <= |cmds| && item in db.items
    ensures item in StateAt(db, cmds, k).items
    ensures StateAt(db, cmds, k).items[item].state == Done
       <==> exists j: nat :: j < k && Completes(db, cmds, j, item)
  {
    InvAt(db, cmds, k);
    if StateAt(db, cmds, k).items[item].state == Done {
      var j := DoneWasCompleted(db, cmds, k, item);
    } else if j: nat :| j < k && Completes(db, cmds, j, item) {
      CompletionFinishes(db, cmds, j, item);
      DoneIsForever(db, cmds, j + 1, k, item);
    }
  }

  lemma OnlyCompletionFinishes(db: Db, cmd: Command, item: nat)
    requires item in db.items
    requires !(cmd.Complete? && cmd.item == item && Step(db, cmd).1 == Accepted)
    ensures item in Step(db, cmd).0.items
    ensures Step(db, cmd).0.items[item].state == Done <==> db.items[item].state == Done
  {
  }

  /** A dispatch marker is written once, only for a run holding live custody, and never rewritten. */
  lemma {:induction false} MarkerIsWriteOnce(db: Db, cmds: seq<Command>, j: nat, k: nat, run: string)
    requires j <= k <= |cmds| && run in StateAt(db, cmds, j).markers
    ensures run in StateAt(db, cmds, k).markers
    ensures StateAt(db, cmds, k).markers[run] == StateAt(db, cmds, j).markers[run]
    decreases k
  {
    if j < k {
      MarkerIsWriteOnce(db, cmds, j, k - 1, run);
      MarkerStep(StateAt(db, cmds, k - 1), cmds[k - 1], run);
    }
  }

  lemma MarkerStep(db: Db, cmd: Command, run: string)
    ensures run in db.markers ==>
      run in Step(db, cmd).0.markers && Step(db, cmd).0.markers[run] == db.markers[run]
    ensures run !in db.markers && run in Step(db, cmd).0.markers ==>
      && cmd.DispatchInsert? && cmd.run == run && Step(db, cmd).0.markers[run] == cmd.task
      && Live(db, cmd.item, cmd.principal, cmd.fence) && HeldBy(db, cmd.item, cmd.principal, run, cmd.fence)
  {
  }

  lemma {:induction false} MarkerHasOneLiveAuthor(db: Db, cmds: seq<Command>, k: nat, run: string) returns (j: nat)
    requires Fresh(db) && k <= |cmds| && run in StateAt(db, cmds, k).markers
    ensures j < k && cmds[j].DispatchInsert? && cmds[j].run == run
    ensures StateAt(db, cmds, k).markers[run] == cmds[j].task
    ensures Live(StateAt(db, cmds, j), cmds[j].item, cmds[j].principal, cmds[j].fence)
    ensures HeldBy(StateAt(db, cmds, j), cmds[j].item, cmds[j].principal, run, cmds[j].fence)
    ensures run !in StateAt(db, cmds, j).markers
  {
    MarkerStep(StateAt(db, cmds, k - 1), cmds[k - 1], run);
    if run in StateAt(db, cmds, k - 1).markers {
      j := MarkerHasOneLiveAuthor(db, cmds, k - 1, run);
    } else {
      j := k - 1;
    }
  }

  /** Every caller that reads a task id back for a run, whenever it does, reads the same one. */
  lemma DispatchRepliesAgree(db: Db, cmds: seq<Command>, j: nat, k: nat)
    requires j < k < |cmds| && cmds[j].DispatchRead? && cmds[k].DispatchRead? && cmds[j].run == cmds[k].run
    requires ReplyAt(db, cmds, j).Marker?
    ensures ReplyAt(db, cmds, k) == ReplyAt(db, cmds, j)
  {
    MarkerIsWriteOnce(db, cmds, j, k, cmds[j].run);
  }

  /** Command j tries to record a marker for the run, by the run that holds the item under a live lease. */
  ghost predicate LiveDispatch(db: Db, cmds: seq<Command>, j: nat, run: string)
    requires j < |cmds|
  {
    && cmds[j].DispatchInsert? && cmds[j].run == run
    && Live(StateAt(db, cmds, j), cmds[j].item, cmds[j].principal, cmds[j].fence)
    && HeldBy(StateAt(db, cmds, j), cmds[j].item, cmds[j].principal, run, cmds[j].fence)
  }

  /**
   A dispatch is an insert and then a read-back, with anything in between. After the insert of a live holder
   the read-back always answers: with its own task if no marker was there, else with the one already there.
   */
  lemma DispatchOfLiveHolderAnswers(db: Db, cmds: seq<Command>, j: nat, k: nat)
    requires j < k < |cmds| && cmds[k].DispatchRead? && LiveDispatch(db, cmds, j, cmds[k].run)
    ensures var before := StateAt(db, cmds, j).markers;
      ReplyAt(db, cmds, k) == Marker(if cmds[k].run in before then before[cmds[k].run] else cmds[j].task)
  {
    MarkerIsWriteOnce(db, cmds, j + 1, k, cmds[k].run);
  }

  /** A read-back is answered exactly when some holder of live custody for the run dispatched it before. */
  lemma DispatchAnsweredIff(db: Db, cmds: seq<Command>, k: nat)
    requires Fresh(db) && k < |cmds| && cmds[k].DispatchRead?
    ensures ReplyAt(db, cmds, k).Marker? <==> exists j: nat :: j < k && LiveDispatch(db, cmds, j, cmds[k].run)
  {
    if ReplyAt(db, cmds, k).Marker? {
      var j := MarkerHasOneLiveAuthor(db, cmds, k, cmds[k].run);
      assert LiveDispatch(db, cmds, j, cmds[k].run);
    }
    if j: nat :| j < k && LiveDispatch(db, cmds, j, cmds[k].run) {
      DispatchOfLiveHolderAnswers(db, cmds, j, k);
    }
  }

  // ---------- reclaim and sweep ----------

  /** The item is held and its lease has not run out. */
  ghost predicate UnderLiveLease(db: Db, item: nat) {
    && item in db.items
    && var c := db.items[item].claim;
    && c.holder.Some? && c.lease.Some? && c.lease.value > db.clock
  }

  /**
   A reclaim hands over exactly a lapsed or unheld, unfinished item whose fencer, if wired, confirmed; then
   the outgoing holder was named to the fencer and the mark stamped. Otherwise the tables are as before.
   */
  lemma ReclaimFailsClosed(db: Db, item: nat, principal: string, run: string, fencer: Fencer)
    requires Inv(db)
    ensures var (after, reply) := Step(db, ReclaimFenced(item, principal, run, fencer));
      && (reply != Refused <==>
            fencer != CannotConfirm && item in db.items && Free(db.items[item].claim, db.clock) && db.items[item].state != Done)
      && after.fenced == db.fenced + (if fencer == NotWired then [] else [CallOn(db, item)])
      && (reply == Refused ==> after.(fenced := db.fenced) == db)
      && (reply != Refused ==>
            && item in after.items
            && after.items[item].claim.fencedAt == Some(db.clock)
            && after.items[item].claim.fence == db.items[item].claim.fence + 1
            && !UnderLiveLease(db, item))
  {
  }

  /** Command k told the fencer to kill a holder whose lease was still running. */
  ghost predicate FencesLiveHolder(db: Db, cmds: seq<Command>, k: nat)
    requires k < |cmds|
  {
    var before, after := StateAt(db, cmds, k), StateAt(db, cmds, k + 1);
    && |after.fenced| == |before.fenced| + 1
    && var c := after.fenced[|before.fenced|];
    && c.holder.Some? && exists f: nat :: Live(before, c.item, c.holder.value, f)
  }

  /**
   The fencer is called before the lease is looked at. So in any history a live holder is fenced by command
   k exactly when that is a reclaim, with a fencer wired, of an item still under a live lease; and then the
   reclaim is refused, and the holder it had killed stays in possession.
   */
  lemma FencesLiveHolderIff(db: Db, cmds: seq<Command>, k: nat)
    requires Inv(db) && k < |cmds|
    ensures FencesLiveHolder(db, cmds, k)
       <==> cmds[k].ReclaimFenced? && cmds[k].fencer != NotWired && UnderLiveLease(StateAt(db, cmds, k), cmds[k].item)
    ensures FencesLiveHolder(db, cmds, k) ==>
      && ReplyAt(db, cmds, k) == Refused && StateAt(db, cmds, k + 1).items == StateAt(db, cmds, k).items
      && UnderLiveLease(StateAt(db, cmds, k + 1), cmds[k].item)
  {
    InvAt(db, cmds, k);
    var before := StateAt(db, cmds, k);
    OnlyReclaimsCallTheFencer(before, cmds[k]);
    if cmds[k].ReclaimFenced? {
      var item := cmds[k].item;
      ReclaimFailsClosed(before, item, cmds[k].principal, cmds[k].run, cmds[k].fencer);
      if UnderLiveLease(before, item) {
        var c := before.items[item].claim;
        assert Live(before, item, c.holder.value, c.fence);
      }
    }
  }

  lemma OnlyReclaimsCallTheFencer(db: Db, cmd: Command)
    ensures !cmd.ReclaimFenced? ==> Step(db, cmd).0.fenced == db.fenced
  {
  }

  /** The input on which it happens: a reclaim while the holder's lease still has time to run. */
  lemma LiveHolderIsFenced(before: Db, item: nat)
    requires before.items == map[item := Row(Claimed, Claim(Some("a"), Some("r"), 1, Some(before.clock + 1), None))]
    ensures var (after, reply) := Step(before, ReclaimFenced(item, "b", "s", Confirms));
      && reply == Refused && after.items == before.items
      && after.fenced == before.fenced + [FenceCall(item, Some("a"), Some("r"))]
      && Live(after, item, "a", 1)
  {
  }

  /** Two sweepers partition the due rows: no row is reclaimed by both, and together they do one sweep of the union. */
  lemma SweepersPartition(db: Db, a: set<nat>, b: set<nat>)
    ensures Sweep(Sweep(db, a), b) == Sweep(db, a + b)
    ensures Step(db, SweepExpired(a)).1.items !! Step(Sweep(db, a), SweepExpired(b)).1.items
    ensures Step(db, SweepExpired(a)).1.items + Step(Sweep(db, a), SweepExpired(b)).1.items
         == Step(db, SweepExpired(a + b)).1.items
  {
    var mid := Sweep(db, a);
    assert forall i | i in db.items :: Due(mid, i) <==> Due(db, i) && i !in a;
    assert Sweep(mid, b).items == Sweep(db, a + b).items;
  }

  /** After a sweep over every row no lapsed holder is left, and each reclaimed row can be claimed again at once. */
  lemma FullSweepFreesEveryLapsedItem(db: Db, item: nat, principal: string, run: string)
    requires Inv(db) && Due(db, item)
    ensures var after := Sweep(db, db.items.Keys);
      && (forall i :: !Due(after, i))
      && Step(after, Acquire(item, principal, run)).1 == Granted(item, db.items[item].claim.fence + 2)
      && Step(after, ClaimNext(after.items.Keys - {item}, principal, run)).1
         == Granted(item, db.items[item].claim.fence + 2)
  {
    var after := Sweep(db, db.items.Keys);
    assert OpenItems(after) - (after.items.Keys - {item}) == {item};
  }

  /** The pop strands nothing: it fails only when every open item is locked by another transaction. */
  lemma PopFailsOnlyWhenContended(db: Db, locked: set<nat>, principal: string, run: string)
    requires Inv(db)
    ensures Step(db, ClaimNext(locked, principal, run)).1 == Refused <==> OpenItems(db) <= locked
    ensures forall i | i in OpenItems(db) - locked ::
      var reply := Step(db, ClaimNext(locked, principal, run)).1;
      reply.Granted? && reply.item in OpenItems(db) - locked && reply.item <= i
  {
    var candidates := OpenItems(db) - locked;
    if candidates == {} {
      forall i | i in OpenItems(db) ensures i in locked {
        assert i in locked || i in candidates;
      }
    } else {
      assert RowOk(db.items[Least(candidates)]);
    }
  }

  // ---------- what each command grants, exactly ----------

  /** The row's claim is this principal's, at this fence, under a lease that has not run out. */
  ghost predicate Holding(db: Db, item: nat, principal: string, fence: nat) {
    && item in db.items && db.items[item].claim.holder == Some(principal) && db.items[item].claim.fence == fence
    && db.items[item].claim.lease.Some? && db.clock < db.items[item].claim.lease.value
  }

  /** A renewal is accepted exactly from the live holder of an unfinished item; it moves that lease and nothing else. */
  lemma RenewAcceptedIff(db: Db, item: nat, principal: string, fence: nat)
    ensures var (after, reply) := Step(db, Renew(item, principal, fence));
      && (reply == Accepted <==> Holding(db, item, principal, fence) && db.items[item].state != Done)
      && (reply != Accepted ==> reply == Refused && after == db)
      && (reply == Accepted ==>
            && item in after.items && after.(items := db.items) == db
            && after.items.Keys == db.items.Keys && (forall i <- db.items | i != item :: after.items[i] == db.items[i])
            && after.items[item].claim.lease == Some(db.clock + db.interval)
            && after.items[item].(claim := db.items[item].claim) == db.items[item]
            && after.items[item].claim.(lease := db.items[item].claim.lease) == db.items[item].claim)
  {
  }

  /** A completion is accepted exactly from the live holder of a claimed item; it marks the item done and nothing else. */
  lemma CompleteAcceptedIff(db: Db, item: nat, principal: string, fence: nat)
    ensures var (after, reply) := Step(db, Complete(item, principal, fence));
      && (reply == Accepted <==> Holding(db, item, principal, fence) && db.items[item].state == Claimed)
      && (reply != Accepted ==> reply == Refused && after == db)
      && (reply == Accepted ==>
            && item in after.items && after.(items := db.items) == db
            && after.items.Keys == db.items.Keys && (forall i <- db.items | i != item :: after.items[i] == db.items[i])
            && after.items[item].state == Done && after.items[item].claim == db.items[item].claim)
  {
  }

  /** A redrive's re-read returns the caller's fence exactly to the live holder for that run, and changes nothing. */
  lemma RedriveReadIff(db: Db, item: nat, principal: string, run: string, fence: nat)
    ensures var (after, reply) := Step(db, RedriveRead(item, principal, run, fence));
      && after == db && (reply == Granted(item, fence) || reply == Refused)
      && (reply == Granted(item, fence) <==>
            Holding(db, item, principal, fence) && db.items[item].claim.run == Some(run))
  {
  }

  /** An acquire is granted exactly on an unfinished item that is unheld or whose lease is over; it rewrites that row only. */
  lemma AcquireGrantedIff(db: Db, item: nat, principal: string, run: string)
    ensures var (after, reply) := Step(db, Acquire(item, principal, run));
      && (reply != Refused <==>
            && item in db.items && db.items[item].state != Done
            && (db.items[item].claim.holder.None? ||
                (db.items[item].claim.lease.Some? && db.items[item].claim.lease.value < db.clock)))
      && (reply == Refused ==> after == db)
      && (reply != Refused ==>
            && reply == Granted(item, db.items[item].claim.fence + 1) && after.(items := db.items) == db
            && after.items.Keys == db.items.Keys && (forall i <- db.items | i != item :: after.items[i] == db.items[i])
            && after.items[item].claim.fencedAt == db.items[item].claim.fencedAt)
  {
  }

  /** A sweep takes exactly the visited, unfinished rows whose holder's lease is over, unholds and stamps them, and leaves the rest. */
  lemma SweepTakesIff(db: Db, batch: set<nat>, item: nat)
    requires item in db.items
    ensures var (after, reply) := Step(db, SweepExpired(batch));
      && reply.Reclaimed? && item in after.items && after.(items := db.items) == db
      && (item in reply.items <==>
            && item in batch && db.items[item].state != Done && db.items[item].claim.holder.Some?
            && db.items[item].claim.lease.Some? && db.items[item].claim.lease.value < db.clock)
      && (item !in reply.items ==> after.items[item] == db.items[item])
      && (item in reply.items ==>
            && after.items[item].state == Open && after.items[item].claim.holder == None
            && after.items[item].claim.run == None && after.items[item].claim.lease == None
            && after.items[item].claim.fence == db.items[item].claim.fence + 1
            && after.items[item].claim.fencedAt == Some(db.clock))
  {
  }

  // ---------- the lease over time ----------

  function Elapsed(cmds: seq<Command>, k: nat): nat
    requires k <= |cmds|
  {
    if k == 0 then 0 else Elapsed(cmds, k - 1) + if cmds[k - 1].Tick? then cmds[k - 1].elapsed else 0
  }

  /** The clock is the first reading plus the time that passed, and the lease length never changes. */
  lemma {:induction false} ClockIsElapsed(db: Db, cmds: seq<Command>, k: nat)
    requires k <= |cmds|
    ensures StateAt(db, cmds, k).clock == db.clock + Elapsed(cmds, k)
    ensures StateAt(db, cmds, k).interval == db.interval
  {
    if k > 0 {
      ClockIsElapsed(db, cmds, k - 1);
      ClockStep(StateAt(db, cmds, k - 1), cmds[k - 1]);
    }
  }

  lemma ClockStep(db: Db, cmd: Command)
    ensures Step(db, cmd).0.clock == db.clock + if cmd.Tick? then cmd.elapsed else 0
    ensures Step(db, cmd).0.interval == db.interval
  {
  }

  /** Held by this run at this fence, under a lease that lasts at least until `until`. */
  ghost predicate HeldUntil(db: Db, item: nat, p: string, r: string, f: nat, until: int) {
    HeldBy(db, item, p, r, f) && db.items[item].claim.lease.Some? && db.items[item].claim.lease.value >= until
  }

  lemma LeaseStep(db: Db, cmd: Command, item: nat, p: string, r: string, f: nat, until: int)
    requires HeldUntil(db, item, p, r, f, until) && until - db.interval <= db.clock < until
    ensures HeldUntil(Step(db, cmd).0, item, p, r, f, until)
  {
  }

  /** Command j granted the item to (p, r) at fence f, or renewed it for its holder. */
  ghost predicate Leases(db: Db, cmds: seq<Command>, j: nat, item: nat, p: string, r: string, f: nat)
    requires j < |cmds|
  {
    || IssuedTo(db, cmds, j, item, f, p, r)
    || (cmds[j] == Renew(item, p, f) && ReplyAt(db, cmds, j) == Accepted && HeldBy(StateAt(db, cmds, j), item, p, r, f))
  }

  lemma LeaseBegins(db: Db, cmds: seq<Command>, j: nat, item: nat, p: string, r: string, f: nat)
    requires j < |cmds| && Leases(db, cmds, j, item, p, r, f)
    ensures HeldUntil(StateAt(db, cmds, j + 1), item, p, r, f, db.clock + Elapsed(cmds, j) + db.interval)
  {
    ClockIsElapsed(db, cmds, j);
    if cmds[j].Renew? {
      RenewAcceptedIff(StateAt(db, cmds, j), item, p, f);
    } else {
      GrantStep(StateAt(db, cmds, j), cmds[j], item, f);
    }
  }

  lemma {:induction false} LeaseLasts(
    db: Db, cmds: seq<Command>, j: nat, k: nat, item: nat, p: string, r: string, f: nat, until: int
  )
    requires j <= k <= |cmds| && HeldUntil(StateAt(db, cmds, j), item, p, r, f, until)
    requires until - db.interval <= db.clock + Elapsed(cmds, j) && db.clock + Elapsed(cmds, k) < until
    ensures HeldUntil(StateAt(db, cmds, k), item, p, r, f, until)
    decreases k
  {
    if j < k {
      LeaseLasts(db, cmds, j, k - 1, item, p, r, f, until);
      ClockIsElapsed(db, cmds, k - 1);
      ElapsedGrows(cmds, j, k - 1);
      LeaseStep(StateAt(db, cmds, k - 1), cmds[k - 1], item, p, r, f, until);
    }
  }

  lemma {:induction false} ElapsedGrows(cmds: seq<Command>, j: nat, k: nat)
    requires j <= k <= |cmds|
    ensures Elapsed(cmds, j) <= Elapsed(cmds, k)
    decreases k
  {
    if j < k { ElapsedGrows(cmds, j, k - 1); }
  }

  /** A live holder is displaced by no command: nobody is granted its item and no sweep takes it. */
  lemma LiveHolderIsNotDisplaced(db: Db, cmds: seq<Command>, k: nat, item: nat, p: string, f: nat)
    requires k < |cmds| && Holding(StateAt(db, cmds, k), item, p, f)
    ensures !Bumps(db, cmds, k, item)
  {
    FenceMove(StateAt(db, cmds, k), cmds[k], item);
    LiveHolderStep(StateAt(db, cmds, k), cmds[k], item, p, f);
  }

  lemma LiveHolderStep(db: Db, cmd: Command, item: nat, p: string, f: nat)
    requires Holding(db, item, p, f)
    ensures !(IsGrant(cmd) && Step(db, cmd).1.Granted? && Step(db, cmd).1.item == item)
  {
  }

  lemma LeaseReaches(db: Db, cmds: seq<Command>, j: nat, k: nat, item: nat, p: string, r: string, f: nat)
    requires j < k <= |cmds| && Elapsed(cmds, k) - Elapsed(cmds, j) < db.interval
    requires HeldUntil(StateAt(db, cmds, j + 1), item, p, r, f, db.clock + Elapsed(cmds, j) + db.interval)
    ensures Holding(StateAt(db, cmds, k), item, p, f) && HeldBy(StateAt(db, cmds, k), item, p, r, f)
  {
    ElapsedGrows(cmds, j, j + 1);
    LeaseLasts(db, cmds, j + 1, k, item, p, r, f, db.clock + Elapsed(cmds, j) + db.interval);
    ClockIsElapsed(db, cmds, k);
  }

  /**
   The promise of the lease: while less than its length has passed since a holder's grant or accepted renewal,
   whatever anybody does, the holder still holds the item live at that fence.
   */
  lemma RecentLeaseIsKept(db: Db, cmds: seq<Command>, j: nat, k: nat, item: nat, p: string, r: string, f: nat)
    requires j < k <= |cmds| && Leases(db, cmds, j, item, p, r, f)
    requires Elapsed(cmds, k) - Elapsed(cmds, j) < db.interval
    ensures Holding(StateAt(db, cmds, k), item, p, f) && HeldBy(StateAt(db, cmds, k), item, p, r, f)
  {
    LeaseBegins(db, cmds, j, item, p, r, f);
    LeaseReaches(db, cmds, j, k, item, p, r, f);
  }
}
