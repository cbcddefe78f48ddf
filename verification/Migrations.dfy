/** Selecting the embedded migrations: filter, sort, ledger keys. */
module MigrationFiles {
  import opened Basics

  predicate IsSelfCheck(path: string) {
    |path| >= 9 && path[|path| - 9..] == "_test.sql"
  }

  /** A self-check is a file whose name ends in _test.sql. */
  lemma SelfCheckIff(path: string)
    ensures IsSelfCheck(path) <==> exists stem: string :: path == stem + "_test.sql"
  {
    if IsSelfCheck(path) { assert path == path[..|path| - 9] + "_test.sql"; }
  }

  /** The last path element; on a glob entry this is the file name. */
  function Base(path: string): string {
    if path == "" || '/' !in path then path else Base(path[1..])
  }

  const PARENT: string := "migrations"
  const DIR: string := PARENT + "/"

  /** What the directory glob returns: distinct file paths directly in the directory. */
  ghost predicate GlobResult(entries: seq<string>) {
    && (forall e | e in entries :: |e| >= |DIR| && e[..|DIR|] == DIR && '/' !in e[|DIR|..])
    && Distinct(entries)
  }

  ghost function WithoutSelfChecks(entries: seq<string>): (out: seq<string>)
    ensures forall e :: e in out <==> e in entries && !IsSelfCheck(e)
  {
    if entries == [] then []
    else
      var rest, last := WithoutSelfChecks(entries[..|entries| - 1]), entries[|entries| - 1];
      if IsSelfCheck(last) then rest else rest + [last]
  }

  lemma SameElementsSameDistinctness(a: seq<string>, b: seq<string>)
    requires multiset(a) == multiset(b) && Distinct(a)
    ensures Distinct(b)
  {
    forall x | x in a ensures multiset(a)[x] == 1 {
      OnceEach(a, x);
    }
    forall i, j | 0 <= i < j < |b| ensures b[i] != b[j] {
      assert b == b[..j] + [b[j]] + b[j + 1..];
      assert b[j] in multiset(b) && b[j] in multiset(a);
      assert multiset(b[..j])[b[j]] == 0;
      assert b[i] in b[..j];
    }
  }

  lemma {:induction false} FilterKeepsDistinct(entries: seq<string>)
    requires Distinct(entries)
    ensures Distinct(WithoutSelfChecks(entries))
  {
    if entries != [] {
      FilterKeepsDistinct(entries[..|entries| - 1]);
    }
  }

  lemma {:induction false} BaseOfSuffix(prefix: string, name: string)
    requires '/' !in name
    ensures Base(prefix + "/" + name) == name
  {
    var path := prefix + "/" + name;
    assert path[|prefix|] == '/';
    if prefix == "" {
      assert path[1..] == name;
    } else {
      assert path[1..] == prefix[1..] + "/" + name;
      BaseOfSuffix(prefix[1..], name);
    }
  }

  /**
   The selected paths are exactly the non-self-check entries, in lexical order, each once; and
   distinct files keep distinct ledger keys.
   */
  method SelectMigrations(entries: seq<string>) returns (names: seq<string>)
    requires GlobResult(entries)
    ensures Sorted(names) && Distinct(names)
    ensures forall e :: e in names <==> e in entries && !IsSelfCheck(e)
    ensures Distinct(Versions(names)) && Sorted(Versions(names))
  {
    var out := [];
    for n := 0 to |entries|
      invariant out == WithoutSelfChecks(entries[..n])
    {
      assert entries[..n + 1][..n] == entries[..n];
      if !IsSelfCheck(entries[n]) {
        out := out + [entries[n]];
      }
    }
    assert entries[..|entries|] == entries;
    names := SortStrings(out);
    FilterKeepsDistinct(entries);
    SameElementsSameDistinctness(out, names);
    forall e ensures e in names <==> e in out {
      assert e in names <==> e in multiset(names);
    }
    VersionsInOrder(names, entries);
  }

  /** The ledger keys of a list of paths. */
  function Versions(names: seq<string>): (v: seq<string>)
    ensures |v| == |names| && forall i | 0 <= i < |v| :: v[i] == Base(names[i])
  {
    seq(|names|, i requires 0 <= i < |names| => Base(names[i]))
  }

  lemma {:induction false} CommonPrefixKeepsOrder(prefix: string, a: string, b: string)
    ensures LexLe(prefix + a, prefix + b) <==> LexLe(a, b)
  {
    if prefix == "" {
      assert prefix + a == a && prefix + b == b;
    } else {
      assert (prefix + a)[1..] == prefix[1..] + a && (prefix + b)[1..] == prefix[1..] + b;
      CommonPrefixKeepsOrder(prefix[1..], a, b);
    }
  }

  lemma VersionsInOrder(names: seq<string>, entries: seq<string>)
    requires GlobResult(entries) && Distinct(names) && Sorted(names) && forall e | e in names :: e in entries
    ensures Distinct(Versions(names)) && Sorted(Versions(names))
  {
    var v := Versions(names);
    forall i, j | 0 <= i < j < |v| ensures v[i] != v[j] && LexLe(v[i], v[j]) {
      var a, b := names[i], names[j];
      assert a in entries && b in entries;
      BaseOfEntry(a);
      BaseOfEntry(b);
      CommonPrefixKeepsOrder(DIR, Base(a), Base(b));
    }
  }

  lemma BaseOfEntry(e: string)
    requires |e| >= |DIR| && e[..|DIR|] == DIR && '/' !in e[|DIR|..]
    ensures e == DIR + Base(e)
  {
    var name := e[|DIR|..];
    BaseOfSuffix(PARENT, name);
    assert e == DIR + name;
  }
}

/**
 Any number of processes running the migration loop against one database.

 A runner's program counter sits between its database calls. The check that a version is already
 recorded is outside the transaction; the body and the ledger insert are inside it. The ledger's
 primary key is the only thing that settles a race: an insert of a version another open
 transaction has inserted waits, and an insert of a recorded version fails.
 */
module MigrationRace {
  import opened Basics
  import opened MigrationFiles

  datatype Pc =
    | Start                // before the ledger table is ensured
    | Check(at: nat)       // about to ask whether versions[at] is recorded
    | Begin(at: nat)       // not recorded when asked; about to open the transaction
    | Body(at: nat)        // transaction open; about to execute the file
    | Record(at: nat)      // file executed; about to insert the ledger row
    | Commit(at: nat)      // ledger row inserted, not yet committed
    | Finished(ok: bool)   // Apply returned: nil or an error

  /** One process and the ledger keys its binary embeds, in order. */
  datatype Runner = Runner(versions: seq<string>, pc: Pc)

  /** Committed state: the ledger, the bodies committed in order; and the live processes. */
  datatype State = State(ledger: set<string>, schema: seq<string>, runners: map<nat, Runner>)

  /** How the next database call of a runner ends. `AnswerLost` commits but reports an error. */
  datatype Outcome = Works | Fails | AnswerLost

  datatype Action =
    | Spawn(id: nat, versions: seq<string>)
    | Call(id: nat, outcome: Outcome)
    | Crash(id: nat)

  /** Runner r has an open transaction that inserted this version. */
  ghost predicate Holds(s: State, r: nat, version: string) {
    && r in s.runners && s.runners[r].pc.Commit?
    && s.runners[r].pc.at < |s.runners[r].versions|
    && s.runners[r].versions[s.runners[r].pc.at] == version
  }

  ghost predicate Contended(s: State, id: nat, version: string) {
    exists r :: r != id && Holds(s, r, version)
  }

  ghost function At(s: State, id: nat, pc: Pc): State
    requires id in s.runners
  {
    s.(runners := s.runners[id := s.runners[id].(pc := pc)])
  }

  ghost function CallStep(s: State, id: nat, outcome: Outcome): State
    requires id in s.runners
  {
    var v := s.runners[id].versions;
    match s.runners[id].pc
    case Finished(_) => s
    case Start => At(s, id, if outcome == Works && v != [] then Check(0) else Finished(false))
    case Check(i) =>
      if i >= |v| then At(s, id, Finished(true))
      else if outcome != Works then At(s, id, Finished(false))
      else At(s, id, if v[i] in s.ledger then Check(i + 1) else Begin(i))
    case Begin(i) => At(s, id, if outcome == Works then Body(i) else Finished(false))
    case Body(i) => At(s, id, if outcome == Works then Record(i) else Finished(false))
    case Record(i) =>
      if outcome != Works || i >= |v| || v[i] in s.ledger then At(s, id, Finished(false))
      else if Contended(s, id, v[i]) then s
      else At(s, id, Commit(i))
    case Commit(i) =>
      if outcome == Fails || i >= |v| then At(s, id, Finished(false))
      else
        At(s, id, if outcome == Works then Check(i + 1) else Finished(false))
          .(ledger := s.ledger + {v[i]}, schema := s.schema + [v[i]])
  }

  ghost function Step(s: State, a: Action): State {
    match a
    case Spawn(id, versions) =>
      if id in s.runners then s else s.(runners := s.runners[id := Runner(versions, Start)])
    case Call(id, outcome) => if id in s.runners then CallStep(s, id, outcome) else s
    case Crash(id) => s.(runners := s.runners - {id})
  }

  ghost function StateAt(s: State, acts: seq<Action>, k: nat): State
    requires k <= |acts|
  {
    if k == 0 then s else Step(StateAt(s, acts, k - 1), acts[k - 1])
  }

  ghost predicate InTx(pc: Pc) { pc.Begin? || pc.Body? || pc.Record? || pc.Commit? }

  /** Every earlier embedded version of this runner is recorded. */
  ghost predicate PrefixRecorded(ledger: set<string>, versions: seq<string>, at: nat) {
    forall j | 0 <= j < at && j < |versions| :: versions[j] in ledger
  }

  ghost predicate RunnerOk(s: State, id: nat)
    requires id in s.runners
  {
    var Runner(v, pc) := s.runners[id];
    && (pc.Check? ==> pc.at <= |v| && v != [] && PrefixRecorded(s.ledger, v, pc.at))
    && (InTx(pc) ==> pc.at < |v| && PrefixRecorded(s.ledger, v, pc.at))
    && (pc.Commit? ==> v[pc.at] !in s.ledger && !Contended(s, id, v[pc.at]))
    && (pc == Finished(true) ==> v != [] && PrefixRecorded(s.ledger, v, |v|))
  }

  /** The ledger is the first ledger plus exactly the committed bodies, each committed once. */
  ghost predicate Inv(s: State, ledger0: set<string>) {
    && s.ledger == ledger0 + (set v | v in s.schema)
    && Distinct(s.schema)
    && (forall v | v in s.schema :: v !in ledger0)
    && (forall id | id in s.runners :: RunnerOk(s, id))
  }

  ghost predicate Initial(s: State) {
    s.schema == [] && s.runners == map[]
  }

  /** The step is the commit of this version by a runner whose earlier versions are all recorded. */
  ghost predicate IsCommitOf(s: State, a: Action, version: string) {
    && a.Call? && Holds(s, a.id, version) && version !in s.ledger
    && PrefixRecorded(s.ledger, s.runners[a.id].versions, s.runners[a.id].pc.at)
  }

  /** A step moves the ledger and the schema together, by at most one unrecorded version. */
  lemma StepCommitsWhole(s: State, a: Action, ledger0: set<string>)
    requires Inv(s, ledger0)
    ensures var t := Step(s, a);
      || (t.ledger == s.ledger && t.schema == s.schema)
      || (exists v :: IsCommitOf(s, a, v) && t.schema == s.schema + [v] && t.ledger == s.ledger + {v})
  {
    if a.Call? && a.id in s.runners {
      assert RunnerOk(s, a.id);
      var r := s.runners[a.id];
      if r.pc.Commit? { assert IsCommitOf(s, a, r.versions[r.pc.at]); }
    }
  }

  /** A runner that is not the one acting keeps its promises. */
  lemma StepKeepsBystander(s: State, a: Action, ledger0: set<string>, id: nat)
    requires Inv(s, ledger0) && id in s.runners && (a.Spawn? || a.id != id)
    ensures id in Step(s, a).runners && RunnerOk(Step(s, a), id)
  {
    var t := Step(s, a);
    StepCommitsWhole(s, a, ledger0);
    assert RunnerOk(s, id) && t.runners[id] == s.runners[id];
    if t.runners[id].pc.Commit? {
      var v := t.runners[id].versions[t.runners[id].pc.at];
      assert Holds(s, id, v);
      forall r | r != id ensures !Holds(t, r, v) {
        assert !Holds(s, r, v);
      }
      assert !IsCommitOf(s, a, v);
    }
  }

  lemma CallKeepsActor(s: State, id: nat, outcome: Outcome, ledger0: set<string>)
    requires Inv(s, ledger0) && id in s.runners
    ensures id in Step(s, Call(id, outcome)).runners && RunnerOk(Step(s, Call(id, outcome)), id)
  {
    var t := Step(s, Call(id, outcome));
    assert RunnerOk(s, id);
    StepCommitsWhole(s, Call(id, outcome), ledger0);
    if t.runners[id].pc.Commit? {
      var v := t.runners[id].versions[t.runners[id].pc.at];
      forall r | r != id ensures !Holds(t, r, v) {
        assert !Holds(s, r, v);
      }
    }
  }

  lemma StepKeepsInv(s: State, a: Action, ledger0: set<string>)
    requires Inv(s, ledger0)
    ensures Inv(Step(s, a), ledger0)
  {
    StepCommitsWhole(s, a, ledger0);
    forall id | id in Step(s, a).runners ensures RunnerOk(Step(s, a), id) {
      if id in s.runners {
        if a.Call? && a.id == id { CallKeepsActor(s, id, a.outcome, ledger0); }
        else { StepKeepsBystander(s, a, ledger0, id); }
      }
    }
  }

  /**
   Safety over every interleaving: for any number of runners, restarts, failures and crashes, each
   body is committed at most once and the ledger is the initial ledger plus exactly those bodies.
   */
  lemma {:induction false} EveryBodyCommitsAtMostOnce(s: State, acts: seq<Action>, k: nat)
    requires Initial(s) && k <= |acts|
    ensures Inv(StateAt(s, acts, k), s.ledger)
    ensures var t := StateAt(s, acts, k);
      Distinct(t.schema) && t.ledger == s.ledger + (set v | v in t.schema) && forall v | v in t.schema :: v !in s.ledger
  {
    if k > 0 {
      EveryBodyCommitsAtMostOnce(s, acts, k - 1);
      StepKeepsInv(StateAt(s, acts, k - 1), acts[k - 1], s.ledger);
    }
  }

  // ---------- a commit rests on calls that worked ----------

  /** Runner id is at this place in state k. */
  ghost predicate StandsAt(s: State, acts: seq<Action>, k: nat, id: nat, pc: Pc)
    requires k <= |acts|
  {
    id in StateAt(s, acts, k).runners && StateAt(s, acts, k).runners[id].pc == pc
  }

  /** At step i runner id, standing at this place, made a call that worked, and has stood at the next place from then to k. */
  ghost predicate WorkedInto(s: State, acts: seq<Action>, i: nat, k: nat, id: nat, from: Pc, to: Pc)
    requires i < k <= |acts|
  {
    && acts[i] == Call(id, Works) && StandsAt(s, acts, i, id, from)
    && forall m | i < m <= k :: StandsAt(s, acts, m, id, to)
  }

  /** Which place comes before another inside a transaction; only a call that works leads from one to the next. */
  ghost predicate LeadsTo(from: Pc, to: Pc) {
    || (from.Begin? && to == Body(from.at))
    || (from.Body? && to == Record(from.at))
    || (from.Record? && to == Commit(from.at))
  }

  ghost function PlaceBefore(pc: Pc): Pc
    requires pc.Body? || pc.Record? || pc.Commit?
  {
    if pc.Body? then Begin(pc.at) else if pc.Record? then Body(pc.at) else Record(pc.at)
  }

  lemma ArrivalStep(s: State, a: Action, id: nat, to: Pc)
    requires to.Body? || to.Record? || to.Commit?
    requires id in Step(s, a).runners && Step(s, a).runners[id].pc == to
    requires !(id in s.runners && s.runners[id].pc == to)
    ensures a == Call(id, Works) && id in s.runners && s.runners[id].pc == PlaceBefore(to)
    ensures LeadsTo(PlaceBefore(to), to)
  {
  }

  lemma {:induction false} Arrival(s: State, acts: seq<Action>, k: nat, id: nat, to: Pc) returns (i: nat)
    requires Initial(s) && k <= |acts| && StandsAt(s, acts, k, id, to) && (to.Body? || to.Record? || to.Commit?)
    ensures i < k && WorkedInto(s, acts, i, k, id, PlaceBefore(to), to)
  {
    if StandsAt(s, acts, k - 1, id, to) {
      i := Arrival(s, acts, k - 1, id, to);
    } else {
      ArrivalStep(StateAt(s, acts, k - 1), acts[k - 1], id, to);
      i := k - 1;
    }
  }

  /**
   In every run, a version is committed only by a runner that, earlier in that same transaction and without
   leaving it, began it, executed the file and inserted the row, each with a call that worked.
   */
  lemma CommitFollowsWorkingCalls(s: State, acts: seq<Action>, k: nat) returns (begin: nat, body: nat, insert: nat, at: nat)
    requires Initial(s) && k < |acts| && StateAt(s, acts, k + 1).schema != StateAt(s, acts, k).schema
    ensures acts[k].Call? && acts[k].outcome != Fails && begin < body < insert < k
    ensures WorkedInto(s, acts, begin, body, acts[k].id, Begin(at), Body(at))
    ensures WorkedInto(s, acts, body, insert, acts[k].id, Body(at), Record(at))
    ensures WorkedInto(s, acts, insert, k, acts[k].id, Record(at), Commit(at))
    ensures var r := StateAt(s, acts, k).runners[acts[k].id];
      at < |r.versions| && StateAt(s, acts, k + 1).schema == StateAt(s, acts, k).schema + [r.versions[at]]
  {
    CommitsInOrder(s, acts, k);
    var id := acts[k].id;
    at := StateAt(s, acts, k).runners[id].pc.at;
    insert := Arrival(s, acts, k, id, Commit(at));
    body := Arrival(s, acts, insert, id, Record(at));
    begin := Arrival(s, acts, body, id, Body(at));
  }

  /** A call that fails ends the Apply with an error and commits nothing, wherever it strikes; a crash removes the process and commits nothing. */
  lemma FailuresCommitNothing(s: State, id: nat)
    requires id in s.runners && !s.runners[id].pc.Finished?
    ensures var t := Step(s, Call(id, Fails));
      && t.ledger == s.ledger && t.schema == s.schema && id in t.runners
      && (t.runners[id].pc == Finished(false) ||
          (s.runners[id].pc.Check? && s.runners[id].pc.at >= |s.runners[id].versions| && t.runners[id].pc == Finished(true)))
    ensures var t := Step(s, Crash(id)); t == s.(runners := s.runners - {id})
  {
  }

  /**
   A process starts with its list at the first call; the check skips exactly the recorded versions; an insert fails on
   a recorded version and waits for another open insert of it; an answer lost at commit still committed.
   */
  lemma CallsThatWork(s: State, id: nat, versions: seq<string>)
    ensures id !in s.runners ==> Step(s, Spawn(id, versions)) == s.(runners := s.runners[id := Runner(versions, Start)])
    ensures id in s.runners && s.runners[id].pc.Check? && s.runners[id].pc.at < |s.runners[id].versions| ==>
      var i, v := s.runners[id].pc.at, s.runners[id].versions;
      Step(s, Call(id, Works)) == At(s, id, if v[i] in s.ledger then Check(i + 1) else Begin(i))
    ensures id in s.runners && s.runners[id].pc.Commit? && s.runners[id].pc.at < |s.runners[id].versions| ==>
      var i, v := s.runners[id].pc.at, s.runners[id].versions;
      && Step(s, Call(id, AnswerLost)) == State(s.ledger + {v[i]}, s.schema + [v[i]], At(s, id, Finished(false)).runners)
      && Step(s, Call(id, Works)) == State(s.ledger + {v[i]}, s.schema + [v[i]], At(s, id, Check(i + 1)).runners)
    ensures id in s.runners && s.runners[id].pc.Record? && s.runners[id].pc.at < |s.runners[id].versions| ==>
      var i, v := s.runners[id].pc.at, s.runners[id].versions;
      Step(s, Call(id, Works)) ==
        if v[i] in s.ledger then At(s, id, Finished(false))
        else if exists r :: r != id && Holds(s, r, v[i]) then s
        else At(s, id, Commit(i))
  {
  }

  /** Committed state only grows: the schema history is extended, never rewritten. */
  lemma {:induction false} HistoryOnlyGrows(s: State, acts: seq<Action>, j: nat, k: nat)
    requires Initial(s) && j <= k <= |acts|
    ensures StateAt(s, acts, j).ledger <= StateAt(s, acts, k).ledger
    ensures StateAt(s, acts, j).schema <= StateAt(s, acts, k).schema
    decreases k
  {
    if j < k {
      HistoryOnlyGrows(s, acts, j, k - 1);
      EveryBodyCommitsAtMostOnce(s, acts, k - 1);
      StepCommitsWhole(StateAt(s, acts, k - 1), acts[k - 1], s.ledger);
    }
  }

  /** When a body commits, every version its binary embeds before it is already recorded. */
  lemma CommitsInOrder(s: State, acts: seq<Action>, k: nat)
    requires Initial(s) && k < |acts|
    requires StateAt(s, acts, k + 1).schema != StateAt(s, acts, k).schema
    ensures acts[k].Call? && acts[k].id in StateAt(s, acts, k).runners
    ensures var pre := StateAt(s, acts, k); var r := pre.runners[acts[k].id];
      && r.pc.Commit? && r.pc.at < |r.versions|
      && StateAt(s, acts, k + 1).schema == pre.schema + [r.versions[r.pc.at]]
      && r.versions[r.pc.at] !in pre.ledger
      && forall j | 0 <= j < r.pc.at :: r.versions[j] in pre.ledger
  {
    EveryBodyCommitsAtMostOnce(s, acts, k);
    StepCommitsWhole(StateAt(s, acts, k), acts[k], s.ledger);
  }

  /**
   An Apply that returned nil found every version recorded, and from then on no runner
   ever commits any of those versions again.
   */
  lemma NilMeansHeadForever(s: State, acts: seq<Action>, j: nat, k: nat, id: nat)
    requires Initial(s) && j <= k <= |acts|
    requires id in StateAt(s, acts, j).runners && StateAt(s, acts, j).runners[id].pc == Finished(true)
    ensures var v := StateAt(s, acts, j).runners[id].versions;
      var old_, now := StateAt(s, acts, j), StateAt(s, acts, k);
      && v != []
      && (forall i | 0 <= i < |v| :: v[i] in now.ledger)
      && old_.schema <= now.schema
      && forall i, m | 0 <= i < |v| && |old_.schema| <= m < |now.schema| :: now.schema[m] != v[i]
  {
    EveryBodyCommitsAtMostOnce(s, acts, j);
    EveryBodyCommitsAtMostOnce(s, acts, k);
    HistoryOnlyGrows(s, acts, j, k);
    var old_, now := StateAt(s, acts, j), StateAt(s, acts, k);
    assert RunnerOk(old_, id);
    var v := old_.runners[id].versions;
    forall i, m | 0 <= i < |v| && |old_.schema| <= m < |now.schema| ensures now.schema[m] != v[i] {
      assert now.schema[m] in now.schema;
      if v[i] in old_.schema {
        var n :| 0 <= n < |old_.schema| && old_.schema[n] == v[i];
        assert now.schema[n] == v[i];
      }
    }
  }

  /** Every process embeds the newest binary's list or, during a rolling update, a shorter start of it. */
  ghost predicate OneLineage(acts: seq<Action>, versions: seq<string>) {
    forall a | a in acts && a.Spawn? :: a.versions <= versions
  }

  lemma {:induction false} RunnersShareLineage(s: State, acts: seq<Action>, versions: seq<string>, k: nat, id: nat)
    requires Initial(s) && k <= |acts| && OneLineage(acts, versions) && id in StateAt(s, acts, k).runners
    ensures StateAt(s, acts, k).runners[id].versions <= versions
  {
    if k > 0 {
      assert acts[k - 1] in acts;
      if id in StateAt(s, acts, k - 1).runners {
        RunnersShareLineage(s, acts, versions, k - 1, id);
      }
    }
  }

  lemma NextIsNextInOrder(schema: seq<string>, versions: seq<string>, at: nat)
    requires Distinct(versions) && schema <= versions && at < |versions|
    requires versions[at] !in schema && forall j | 0 <= j < at :: versions[j] in schema
    ensures at == |schema|
  {
    assert forall j | 0 <= j < |schema| :: versions[j] == schema[j] && versions[j] in schema;
    if |schema| < |versions| { assert versions[|schema|] !in schema; }
  }

  /** From an empty ledger the committed history is always a prefix of the newest binary's list. */
  lemma {:induction false} HistoryIsAPrefix(s: State, acts: seq<Action>, versions: seq<string>, k: nat)
    requires Initial(s) && s.ledger == {} && k <= |acts| && OneLineage(acts, versions) && Distinct(versions)
    ensures StateAt(s, acts, k).schema <= versions
  {
    if k > 0 {
      HistoryIsAPrefix(s, acts, versions, k - 1);
      var pre := StateAt(s, acts, k - 1);
      EveryBodyCommitsAtMostOnce(s, acts, k - 1);
      StepCommitsWhole(pre, acts[k - 1], s.ledger);
      if StateAt(s, acts, k).schema != pre.schema {
        var id := acts[k - 1].id;
        RunnersShareLineage(s, acts, versions, k - 1, id);
        NextIsNextInOrder(pre.schema, versions, pre.runners[id].pc.at);
      }
    }
  }

  /** How far a runner still has to go, in database calls. */
  ghost function CallsLeft(r: Runner): nat {
    match r.pc
    case Start => 5 * |r.versions| + 2
    case Check(i) => if i <= |r.versions| then 5 * (|r.versions| - i) + 1 else 1
    case Begin(i) => if i < |r.versions| then 5 * (|r.versions| - i) else 1
    case Body(i) => if i < |r.versions| then 5 * (|r.versions| - i) - 1 else 1
    case Record(i) => if i < |r.versions| then 5 * (|r.versions| - i) - 2 else 1
    case Commit(i) => if i < |r.versions| then 5 * (|r.versions| - i) - 3 else 1
    case Finished(_) => 0
  }

  /**
   Recovery: whatever crashed before, a process started alone on a working database returns nil,
   so every version it embeds ends up recorded. (A process that lost a race while others were alive
   fails on the primary key instead, which is why its open transaction must not be stale.)
   */
  lemma {:induction false} LoneRunnerReachesHead(s: State, ledger0: set<string>, id: nat) returns (end: State, acts: seq<Action>)
    requires Inv(s, ledger0) && s.runners.Keys == {id}
    requires s.runners[id].versions != [] && s.runners[id].pc != Finished(false)
    requires InTx(s.runners[id].pc) ==>
      s.runners[id].pc.at < |s.runners[id].versions| && s.runners[id].versions[s.runners[id].pc.at] !in s.ledger
    ensures forall a | a in acts :: a == Call(id, Works)
    ensures end == StateAt(s, acts, |acts|) && Inv(end, ledger0)
    ensures id in end.runners && end.runners[id] == Runner(s.runners[id].versions, Finished(true))
    decreases CallsLeft(s.runners[id])
  {
    if s.runners[id].pc == Finished(true) {
      end, acts := s, [];
    } else {
      var next := Step(s, Call(id, Works));
      assert RunnerOk(s, id);
      StepKeepsInv(s, Call(id, Works), ledger0);
      var rest;
      end, rest := LoneRunnerReachesHead(next, ledger0, id);
      acts := [Call(id, Works)] + rest;
      StateAtShift(s, Call(id, Works), rest, |rest|);
    }
  }

  lemma {:induction false} StateAtShift(s: State, a: Action, rest: seq<Action>, k: nat)
    requires k <= |rest|
    ensures StateAt(s, [a] + rest, k + 1) == StateAt(Step(s, a), rest, k)
  {
    if k == 0 {
      assert StateAt(s, [a] + rest, 0) == s;
    } else {
      StateAtShift(s, a, rest, k - 1);
    }
  }
}

/** One process running the loop with nobody else connected. */
module MigrationApply {
  import opened Basics
  import opened MigrationFiles

  class Database {
    var ledger: set<string>
    var schema: seq<string>

    constructor ()
      ensures ledger == {} && schema == []
    {
      ledger, schema := {}, [];
    }
  }

  /** The versions not yet recorded, in order. */
  ghost function Pending(versions: seq<string>, ledger: set<string>): (p: seq<string>)
    ensures forall v :: v in p <==> v in versions && v !in ledger
  {
    if versions == [] then []
    else
      var rest, last := Pending(versions[..|versions| - 1], ledger), versions[|versions| - 1];
      if last in ledger then rest else rest + [last]
  }

  lemma PendingGrows(versions: seq<string>, ledger: set<string>, n: nat)
    requires n < |versions|
    ensures Pending(versions[..n + 1], ledger)
         == Pending(versions[..n], ledger) + if versions[n] in ledger then [] else [versions[n]]
  {
    assert versions[..n + 1][..n] == versions[..n];
  }

  lemma {:induction false} PendingIsMonotone(versions: seq<string>, ledger: set<string>, n: nat)
    requires n <= |versions|
    ensures Pending(versions[..n], ledger) <= Pending(versions, ledger)
    decreases |versions| - n
  {
    if n == |versions| {
      assert versions[..n] == versions;
    } else {
      PendingGrows(versions, ledger, n);
      PendingIsMonotone(versions, ledger, n + 1);
    }
  }

  lemma {:induction false} NothingPending(versions: seq<string>, ledger: set<string>)
    requires forall v | v in versions :: v in ledger
    ensures Pending(versions, ledger) == []
  {
    if versions != [] { NothingPending(versions[..|versions| - 1], ledger); }
  }

  /** One file: skipped when recorded, otherwise its body and its ledger row commit together or not at all. */
  method ApplyVersion(db: Database, version: string, fails: bool) returns (ok: bool)
    modifies db
    ensures ok <==> version in old(db.ledger) || !fails
    ensures db.ledger == old(db.ledger) + if ok then {version} else {}
    ensures db.schema == old(db.schema) + if ok && version !in old(db.ledger) then [version] else []
  {
    ok := true;
    if version !in db.ledger {
      if fails { return false; }
      db.ledger := db.ledger + {version};
      db.schema := db.schema + [version];
    }
  }

  /**
   The loop. Success commits exactly the unrecorded versions in order and records them, so nothing
   stays pending. Failure (the file of a version in `broken` does not execute) leaves the versions
   before the broken one committed and everything else untouched.
   */
  method ApplyVersions(db: Database, versions: seq<string>, broken: set<string>)
      returns (ok: bool, ghost done: seq<string>)
    requires Distinct(versions)
    modifies db
    ensures db.schema == old(db.schema) + done
    ensures db.ledger == old(db.ledger) + set v | v in done
    ensures forall i | 0 <= i < |done| :: done[i] !in broken
    ensures ok ==> done == Pending(versions, old(db.ledger)) && Pending(versions, db.ledger) == []
    ensures !ok ==> var due := Pending(versions, old(db.ledger));
      done < due && due[|done|] in broken
  {
    done, ok := [], false;
    ghost var ledger0, schema0 := db.ledger, db.schema;
    assert schema0 == schema0 + [];
    for n := 0 to |versions|
      invariant done == Pending(versions[..n], ledger0)
      invariant forall i | 0 <= i < |done| :: done[i] !in broken
      invariant db.schema == schema0 + done
      invariant db.ledger == ledger0 + set v | v in done
    {
      PendingGrows(versions, ledger0, n);
      var fine := ApplyVersion(db, versions[n], versions[n] in broken);
      if !fine {
        PendingIsMonotone(versions, ledger0, n + 1);
        return;
      }
      done := Pending(versions[..n + 1], ledger0);
    }
    assert versions[..|versions|] == versions;
    NothingPending(versions, db.ledger);
    ok := true;
  }

  lemma VersionMembers(names: seq<string>)
    ensures forall v :: v in Versions(names) <==> exists e :: e in names && v == Base(e)
  {
    forall v ensures v in Versions(names) <==> exists e :: e in names && v == Base(e) {
      if v in Versions(names) {
        var i :| 0 <= i < |names| && v == Versions(names)[i];
        assert names[i] in names;
      }
      if e :| e in names && v == Base(e) {
        var i :| 0 <= i < |names| && names[i] == e;
        assert Versions(names)[i] == v;
      }
    }
  }

  /** Select, then run the loop; a binary with nothing embedded is refused. */
  method Apply(db: Database, entries: seq<string>, broken: set<string>)
      returns (ok: bool, ghost versions: seq<string>, ghost done: seq<string>)
    requires GlobResult(entries)
    modifies db
    ensures Distinct(versions) && Sorted(versions)
    ensures forall v :: v in versions <==> exists e :: e in entries && !IsSelfCheck(e) && v == Base(e)
    ensures db.schema == old(db.schema) + done
    ensures db.ledger == old(db.ledger) + set v | v in done
    ensures forall i | 0 <= i < |done| :: done[i] !in broken
    ensures ok ==> versions != [] && done == Pending(versions, old(db.ledger)) && Pending(versions, db.ledger) == []
    ensures !ok && versions != [] ==> var due := Pending(versions, old(db.ledger));
      done < due && due[|done|] in broken
    ensures versions == [] ==> !ok && done == []
  {
    var paths := SelectMigrations(entries);
    var keys := Versions(paths);
    VersionMembers(paths);
    versions, done := keys, [];
    if paths == [] {
      ok := false;
      assert db.schema == db.schema + done;
    } else {
      ok, done := ApplyVersions(db, keys, broken);
    }
  }
}
