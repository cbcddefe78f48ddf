/** The per-dimension result accumulator of the conformance suite. */
module ResultRecorder {
  import opened Basics

  datatype Check = AgentCard | TaskLifecycle | SSEProgress | ArtifactEmission | CapabilityHonesty | CredentialMetadata

  const ALL: seq<Check> := [AgentCard, TaskLifecycle, SSEProgress, ArtifactEmission, CapabilityHonesty, CredentialMetadata]

  datatype Result = Result(check: Check, pass: bool, detail: string)

  const GAP: string := "check did not run (harness gap)"

  /** The six dimensions, in the order they are reported, and what a dimension that never ran is reported with. */
  lemma SixDimensions()
    ensures |ALL| == 6 && Distinct(ALL) && (forall c: Check :: c in ALL) && ALL[0] == AgentCard && ALL[5] == CredentialMetadata
    ensures forall c: Check :: OrGap(None, c) == Some(Result(c, false, "check did not run (harness gap)"))
  {
    assert ALL[1] == TaskLifecycle && ALL[2] == SSEProgress && ALL[3] == ArtifactEmission && ALL[4] == CapabilityHonesty;
    forall c: Check ensures c in ALL {
      match c {
        case AgentCard => assert ALL[0] == c;
        case TaskLifecycle => assert ALL[1] == c;
        case SSEProgress => assert ALL[2] == c;
        case ArtifactEmission => assert ALL[3] == c;
        case CapabilityHonesty => assert ALL[4] == c;
        case CredentialMetadata => assert ALL[5] == c;
      }
    }
  }

  /** What a history of records leaves for one dimension. */
  ghost function Verdict(history: seq<Result>, c: Check): Option<Result> {
    if history == [] then None
    else
      var before, r := Verdict(history[..|history| - 1], c), history[|history| - 1];
      if r.check != c || (before.Some? && !before.value.pass) then before else Some(r)
  }

  /** The first failure if there is one, otherwise the last pass; nothing exactly when never recorded. */
  lemma {:induction false} VerdictIsFirstFailureElseLastPass(history: seq<Result>, c: Check) returns (at: nat)
    ensures Verdict(history, c).None? <==> forall i | 0 <= i < |history| :: history[i].check != c
    ensures Verdict(history, c).Some? ==> at < |history| && history[at] == Verdict(history, c).value && history[at].check == c
    ensures Verdict(history, c).Some? && !history[at].pass ==>
      forall i | 0 <= i < at && history[i].check == c :: history[i].pass
    ensures Verdict(history, c).Some? && history[at].pass ==>
      && (forall i | 0 <= i < |history| && history[i].check == c :: history[i].pass)
      && (forall i | at < i < |history| :: history[i].check != c)
  {
    at := 0;
    if history != [] {
      var n := |history| - 1;
      var before := VerdictIsFirstFailureElseLastPass(history[..n], c);
      at := if history[n].check != c || (Verdict(history[..n], c).Some? && !Verdict(history[..n], c).value.pass)
            then before else n;
    }
  }

  /** A dimension that was never recorded reads as a failure. */
  ghost function OrGap(verdict: Option<Result>, c: Check): Option<Result> {
    if verdict.Some? then verdict else Some(Result(c, false, GAP))
  }

  ghost predicate Passed(history: seq<Result>, c: Check) {
    && (exists i :: 0 <= i < |history| && history[i].check == c)
    && (forall i | 0 <= i < |history| && history[i].check == c :: history[i].pass)
  }

  lemma PassedIsVerdict(history: seq<Result>, c: Check)
    ensures Passed(history, c) <==> Verdict(history, c).Some? && Verdict(history, c).value.pass
  {
    var at := VerdictIsFirstFailureElseLastPass(history, c);
    if Verdict(history, c).Some? { assert history[at].check == c; }
  }

  /** The dimensions in the order they were first recorded, each once. */
  ghost function FirstSeen(history: seq<Result>): (order: seq<Check>)
    ensures Distinct(order)
  {
    if history == [] then []
    else
      var front, c := FirstSeen(history[..|history| - 1]), history[|history| - 1].check;
      if c in front then front else front + [c]
  }

  class Recorder {
    var order: seq<Check>
    var results: map<Check, Result>
    ghost var history: seq<Result>

    ghost predicate Valid()
      reads this
    {
      && (forall c :: c in results <==> Verdict(history, c).Some?)
      && (forall c | c in results :: Verdict(history, c) == Some(results[c]))
      && (forall c :: c in order <==> c in results)
      && order == FirstSeen(history)
    }

    constructor ()
      ensures Valid() && history == []
    {
      order, results, history := [], map[], [];
    }

    /** A failure sticks: a later pass never overwrites it. */
    method Record(r: Result)
      requires Valid()
      modifies this
      ensures Valid() && history == old(history) + [r] && order == FirstSeen(old(history) + [r])
    {
      history := history + [r];
      assert history[..|history| - 1] == old(history);
      if r.check !in results {
        order := order + [r.check];
      }
      if r.check in results && !results[r.check].pass {
        return;
      }
      results := results[r.check := r];
    }

    /** A dimension that never ran is recorded as a failure. */
    method FillGaps()
      requires Valid()
      modifies this
      ensures Valid()
      ensures forall i | 0 <= i < |ALL| :: Verdict(history, ALL[i]) == OrGap(Verdict(old(history), ALL[i]), ALL[i])
    {
      ghost var before := history;
      for n := 0 to |ALL|
        invariant Valid()
        invariant forall i | 0 <= i < n :: Verdict(history, ALL[i]) == OrGap(Verdict(before, ALL[i]), ALL[i])
        invariant forall i | n <= i < |ALL| :: Verdict(history, ALL[i]) == Verdict(before, ALL[i])
      {
        if ALL[n] !in results {
          ghost var was := history;
          Record(Result(ALL[n], false, GAP));
          assert history[..|history| - 1] == was;
        }
      }
    }

    /** Every dimension once, in order. */
    method Report() returns (report: seq<Result>)
      requires Valid()
      modifies this
      ensures Valid() && |report| == |ALL| == 6
      ensures forall i | 0 <= i < |ALL| :: Some(report[i]) == OrGap(Verdict(old(history), ALL[i]), ALL[i])
    {
      FillGaps();
      report := [];
      for n := 0 to |ALL|
        invariant |report| == n && forall i | 0 <= i < n :: Some(report[i]) == OrGap(Verdict(old(history), ALL[i]), ALL[i])
      {
        report := report + [results[ALL[n]]];
      }
    }
  }

  method Ok(report: seq<Result>) returns (ok: bool)
    ensures ok <==> forall i | 0 <= i < |report| :: report[i].pass
  {
    for n := 0 to |report|
      invariant forall i | 0 <= i < n :: report[i].pass
    {
      if !report[n].pass { return false; }
    }
    return true;
  }

  /** The gate: a history is certified exactly when every dimension was recorded and none ever failed. */
  method Certify(history: seq<Result>) returns (ok: bool)
    ensures ok <==> forall i | 0 <= i < |ALL| :: Passed(history, ALL[i])
  {
    var recorder := new Recorder();
    for n := 0 to |history|
      invariant fresh(recorder) && recorder.Valid() && recorder.history == history[..n]
    {
      recorder.Record(history[n]);
      assert history[..n + 1] == history[..n] + [history[n]];
    }
    assert history[..|history|] == history;
    var report := recorder.Report();
    ok := Ok(report);
    forall i | 0 <= i < |ALL| ensures report[i].pass <==> Passed(history, ALL[i]) {
      PassedIsVerdict(history, ALL[i]);
    }
  }
}

/** The log checkers of the conformance suite, and the plan it drives the engine with. */
module LogCheckers {
  import opened Basics
  import opened Wire
  import opened TaskRecord
  import D = Drive
  import S = Subscription

  const RUN: string := "run-conformance-0001"
  const WORK: string := "work-conformance-0001"
  const SHA: string := "e3b0c44298fc1c149afbf4c8996fb92427ae41e4649b934ca495991b7852b855"

  // ---------- sequencing ----------

  /** What a gap-free log is: numbered 1..n for this task, opening and closing with a status. */
  ghost predicate SseConforms(log: seq<Event>) {
    && log != [] && NumberedFor(RUN, log)
    && log[0].body.kind == Status && log[|log| - 1].body.kind == Status
  }

  /** StreamEvents(from): the logged events numbered above `from`, in order. */
  function Replay(log: seq<Event>, from: nat): seq<Event> {
    if log == [] then []
    else
      var rest, last := Replay(log[..|log| - 1], from), log[|log| - 1];
      if last.seqNo > from then rest + [last] else rest
  }

  lemma {:induction false} ReplayOfNumbered(id: string, log: seq<Event>, from: nat, n: nat)
    requires NumberedFor(id, log) && n <= |log|
    ensures Replay(log[..n], from) == if from <= n then log[from..n] else []
  {
    if n > 0 {
      assert log[..n][..n - 1] == log[..n - 1];
      ReplayOfNumbered(id, log, from, n - 1);
    }
  }

  /** The subscriber of a finished stream: it has been handed the filtered part of the log it went over. */
  ghost predicate Filtering(s: S.State) {
    && s.done && s.pc != S.Waiting && s.cursor <= |s.log|
    && s.delivered == Replay(s.log[..s.cursor], s.from) && (s.pc == S.Closed ==> s.cursor == |s.log|)
  }

  lemma {:induction false} ScanSkipsOnlyOld(log: seq<Event>, from: nat, i: nat)
    requires i <= |log|
    ensures S.Scan(log, from, i) <= |log| && Replay(log[..S.Scan(log, from, i)], from) == Replay(log[..i], from)
    decreases |log| - i
  {
    if i < |log| && log[i].seqNo <= from {
      assert log[..i + 1][..i] == log[..i];
      ScanSkipsOnlyOld(log, from, i + 1);
    }
  }

  lemma RunKeepsFiltering(s: S.State)
    requires Filtering(s)
    ensures Filtering(S.Step(s, S.Run)) && S.Step(s, S.Run).log == s.log && S.Step(s, S.Run).from == s.from
    ensures s.pc != S.Closed ==> S.Step(s, S.Run).pc == S.Closed || S.Step(s, S.Run).cursor > s.cursor
  {
    if s.pc == S.Scanning {
      ScanSkipsOnlyOld(s.log, s.from, s.cursor);
      var i := S.Scan(s.log, s.from, s.cursor);
      if i < |s.log| { assert s.log[..i + 1][..i] == s.log[..i]; }
    }
  }

  /** On any finished log, well numbered or not, the stream hands over exactly the filtered log before it closes. */
  lemma {:induction false} FinishedStreamIsReplay(s: S.State) returns (n: nat)
    requires Filtering(s)
    ensures S.Runs(s, n).pc == S.Closed && S.Runs(s, n).delivered == Replay(s.log, s.from)
    decreases |s.log| - s.cursor, s.pc != S.Closed
  {
    n := 0;
    if s.pc == S.Closed {
      assert s.log[..|s.log|] == s.log;
    } else {
      RunKeepsFiltering(s);
      var rest := FinishedStreamIsReplay(S.Step(s, S.Run));
      n := rest + 1;
    }
  }

  /** What a resume of a finished task's stream returns, from any number. */
  lemma ResumeOfFinishedTask(log: seq<Event>, from: nat) returns (n: nat)
    ensures var s := S.State(log, true, from, 0, S.Scanning, []);
      S.Runs(s, n).pc == S.Closed && S.Runs(s, n).delivered == Replay(log, from)
  {
    n := FinishedStreamIsReplay(S.State(log, true, from, 0, S.Scanning, []));
  }

  method CheckSSE(log: seq<Event>) returns (pass: bool)
    ensures pass <==> SseConforms(log)
  {
    if log == [] { return false; }
    var problems: seq<string> := [];
    var i := 0;
    while i < |log|
      invariant i <= |log|
      invariant problems == [] && NumberedFor(RUN, log[..i])
    {
      if log[i].seqNo != i + 1 {
        problems := problems + ["not gap-free monotonic"];
        break;
      }
      if log[i].task != RUN {
        problems := problems + ["wrong task id"];
        break;
      }
      i := i + 1;
    }
    assert problems == [] ==> log[..i] == log;
    assert problems == [] <==> NumberedFor(RUN, log);
    if log[0].body.kind != Status { problems := problems + ["first event is not a status event"]; }
    if log[|log| - 1].body.kind != Status { problems := problems + ["last event is not a status event"]; }
    assert problems == [] <==> SseConforms(log);
    if |log| >= 3 {
      var from := log[1].seqNo;
      var got := Replay(log, from);
      if SseConforms(log) {
        ReplayOfNumbered(RUN, log, 2, |log|);
        assert log[..|log|] == log;
      }
      if |got| != |log| - 2 { problems := problems + ["resume returned the wrong number of events"]; }
      var j := 0;
      while j < |got|
        invariant problems == [] <==> SseConforms(log)
      {
        if got[j].seqNo != from + j + 1 {
          problems := problems + ["resume gap"];
          break;
        }
        j := j + 1;
      }
    }
    pass := problems == [];
  }

  // ---------- projections of the log ----------

  /** The artifact references among event bodies. */
  function Refs(bs: seq<Body>): seq<ArtifactRef> {
    if bs == [] then []
    else
      var rest, b := Refs(bs[..|bs| - 1]), bs[|bs| - 1];
      if b.kind == Artifact && b.payload.ArtifactOf? then rest + [b.payload.ref] else rest
  }

  /** The status states among event bodies. */
  function States(bs: seq<Body>): seq<TaskState> {
    if bs == [] then []
    else
      var rest, b := States(bs[..|bs| - 1]), bs[|bs| - 1];
      if b.kind == Status && b.payload.StatusOf? then rest + [b.payload.state] else rest
  }

  predicate HasKind(bs: seq<Body>, kind: EventKind) { exists i :: 0 <= i < |bs| && bs[i].kind == kind }

  method ArtifactRefs(log: seq<Event>) returns (out: seq<ArtifactRef>)
    ensures out == Refs(BodiesOf(log))
  {
    out := [];
    for n := 0 to |log|
      invariant out == Refs(BodiesOf(log[..n]))
    {
      assert BodiesOf(log[..n + 1])[..n] == BodiesOf(log[..n]);
      var ev := log[n];
      if ev.body.kind == Artifact {
        if ev.body.payload.ArtifactOf? { out := out + [ev.body.payload.ref]; }
      }
    }
    assert log[..|log|] == log;
  }

  method StatusStates(log: seq<Event>) returns (out: seq<TaskState>)
    ensures out == States(BodiesOf(log))
  {
    out := [];
    for n := 0 to |log|
      invariant out == States(BodiesOf(log[..n]))
    {
      assert BodiesOf(log[..n + 1])[..n] == BodiesOf(log[..n]);
      var ev := log[n];
      if ev.body.kind == Status {
        if ev.body.payload.StatusOf? { out := out + [ev.body.payload.state]; }
      }
    }
    assert log[..|log|] == log;
  }

  /** The kinds emitted, each once, in order of first appearance. */
  method UniqueKinds(refs: seq<ArtifactRef>) returns (out: seq<string>)
    ensures forall k :: k in out <==> exists i :: 0 <= i < |refs| && refs[i].kind == k
    ensures forall i, j | 0 <= i < j < |out| :: out[i] != out[j]
  {
    out := [];
    var seen: set<string> := {};
    for n := 0 to |refs|
      invariant forall k :: k in out <==> k in seen
      invariant forall k :: k in seen <==> exists i :: 0 <= i < n && refs[i].kind == k
      invariant forall i, j | 0 <= i < j < |out| :: out[i] != out[j]
    {
      if refs[n].kind !in seen {
        seen := seen + {refs[n].kind};
        out := out + [refs[n].kind];
      }
    }
  }

  /** The elements of `sub` that `super` lacks, in order. */
  function Absent(sub: seq<string>, super: seq<string>): (out: seq<string>)
    ensures out == [] <==> forall s <- sub :: s in super
  {
    if sub == [] then []
    else
      var front, last := Absent(sub[..|sub| - 1], super), sub[|sub| - 1];
      assert sub == sub[..|sub| - 1] + [last];
      if last in super then front else front + [last]
  }

  /** Set inclusion, with the missing names sorted and comma joined. */
  method IsSubset(sub: seq<string>, super: seq<string>) returns (text: string, ok: bool, ghost sorted: seq<string>)
    ensures ok <==> forall s <- sub :: s in super
    ensures text == Join(sorted) && Sorted(sorted) && multiset(sorted) == multiset(Absent(sub, super))
  {
    var missing := [];
    for n := 0 to |sub|
      invariant missing == Absent(sub[..n], super)
    {
      assert sub[..n + 1][..n] == sub[..n];
      if sub[n] !in super { missing := missing + [sub[n]]; }
    }
    assert sub[..|sub|] == sub;
    var inOrder := SortStrings(missing);
    assert |inOrder| == |multiset(inOrder)| == |multiset(missing)| == |missing|;
    text, ok, sorted := Join(inOrder), |inOrder| == 0, inOrder;
  }

  // ---------- artifact emission and capability honesty ----------

  ghost predicate RefOk(ref: ArtifactRef) {
    ref.workItem == WORK && ref.uri != "" && |ref.sha256| == 64 && ref.kind != ""
  }

  method CheckArtifacts(log: seq<Event>) returns (pass: bool)
    ensures var refs := Refs(BodiesOf(log)); pass <==> refs != [] && forall i | 0 <= i < |refs| :: RefOk(refs[i])
  {
    var refs := ArtifactRefs(log);
    if refs == [] { return false; }
    var problems: seq<string> := [];
    for n := 0 to |refs|
      invariant problems == [] <==> forall i | 0 <= i < n :: RefOk(refs[i])
    {
      var ref := refs[n];
      if ref.workItem != WORK { problems := problems + ["not bound to the work item"]; }
      if ref.uri == "" { problems := problems + ["empty uri"]; }
      if |ref.sha256| != 64 { problems := problems + ["not content-addressed"]; }
      if ref.kind == "" { problems := problems + ["empty kind"]; }
    }
    pass := problems == [];
  }

  datatype Capabilities = Capabilities(artifactKinds: seq<string>, toolCalls: bool, interactivePrompt: bool)

  /** The run exercised nothing the card does not advertise. */
  ghost predicate Honest(caps: Capabilities, bs: seq<Body>, launches: nat) {
    && (forall i | 0 <= i < |Refs(bs)| :: Refs(bs)[i].kind in caps.artifactKinds)
    && (HasKind(bs, Tool) ==> caps.toolCalls)
    && (InputRequired in States(bs) ==> caps.interactivePrompt)
    && launches > 0
  }

  method CheckCapabilityHonesty(caps: Capabilities, log: seq<Event>, launches: nat) returns (pass: bool)
    ensures pass <==> Honest(caps, BodiesOf(log), launches)
  {
    var problems: seq<string> := [];
    var refs := ArtifactRefs(log);
    var emitted := UniqueKinds(refs);
    var missing, subset, _ := IsSubset(emitted, caps.artifactKinds);
    assert subset <==> forall i | 0 <= i < |refs| :: refs[i].kind in caps.artifactKinds by {
      if !subset {
        var k :| k in emitted && k !in caps.artifactKinds;
      }
    }
    if !subset { problems := problems + ["emitted unadvertised artifact kind(s): " + missing]; }
    var tools := HasEventType(log, Tool);
    if tools && !caps.toolCalls { problems := problems + ["emitted tool events"]; }
    var states := StatusStates(log);
    if InputRequired in states && !caps.interactivePrompt { problems := problems + ["reached input-required"]; }
    if launches == 0 { problems := problems + ["runtime never launched"]; }
    pass := problems == [];
  }

  method HasEventType(log: seq<Event>, kind: EventKind) returns (found: bool)
    ensures found <==> HasKind(BodiesOf(log), kind)
  {
    for n := 0 to |log|
      invariant forall i | 0 <= i < n :: log[i].body.kind != kind
    {
      if log[n].body.kind == kind {
        assert BodiesOf(log)[n].kind == kind;
        return true;
      }
    }
    return false;
  }

  // ---------- what the engine relays ----------

  /** The artifact references a progress stream carries. */
  function RefsIn(ps: seq<Progress>): seq<ArtifactRef> {
    if ps == [] then []
    else
      var rest, p := RefsIn(ps[..|ps| - 1]), ps[|ps| - 1];
      if p.Refers? then rest + [p.ref] else rest
  }

  lemma {:induction false} ProjectionsOfSum(a: seq<Body>, b: seq<Body>)
    ensures Refs(a + b) == Refs(a) + Refs(b) && States(a + b) == States(a) + States(b)
  {
    if b == [] {
      assert a + b == a && Refs(a) + Refs(b) == Refs(a) && States(a) + States(b) == States(a);
    } else {
      assert (a + b)[..|a + b| - 1] == a + b[..|b| - 1];
      ProjectionsOfSum(a, b[..|b| - 1]);
    }
  }

  lemma FourParts(a: seq<Body>, b: seq<Body>, c: seq<Body>, d: seq<Body>)
    ensures Refs(a + b + c + d) == Refs(a) + Refs(b) + Refs(c) + Refs(d)
    ensures States(a + b + c + d) == States(a) + States(b) + States(c) + States(d)
  {
    ProjectionsOfSum(a + b + c, d);
    ProjectionsOfSum(a + b, c);
    ProjectionsOfSum(a, b);
  }

  lemma OneBody(b: Body)
    ensures Refs([b]) == if b.kind == Artifact && b.payload.ArtifactOf? then [b.payload.ref] else []
    ensures States([b]) == if b.kind == Status && b.payload.StatusOf? then [b.payload.state] else []
  {
    assert [b][..0] == [];
  }

  lemma RefsInGrows(ps: seq<Progress>, n: nat)
    requires n < |ps|
    ensures RefsIn(ps[..n + 1]) == RefsIn(ps[..n]) + if ps[n].Refers? then [ps[n].ref] else []
  {
    assert ps[..n + 1][..n] == ps[..n];
  }

  lemma FunnelKeepsUnit(ps: seq<Progress>, n: nat)
    requires n < |ps|
    ensures var b := BodyOf(D.Funnel(ps, n));
      Refs([b]) == (if ps[n].Refers? then [ps[n].ref] else []) && States([b]) == []
  {
    OneBody(BodyOf(D.Funnel(ps, n)));
  }

  /** The funnel loses, reorders and invents no artifact reference, and adds no status. */
  lemma {:induction false} RelayKeepsRefs(ps: seq<Progress>, n: nat)
    requires n <= |ps|
    ensures Refs(D.Relayed(ps[..n])) == RefsIn(ps[..n])
    ensures States(D.Relayed(ps[..n])) == []
  {
    if n > 0 {
      RelayKeepsRefs(ps, n - 1);
      RelayOneMore(ps, n - 1);
    }
  }

  lemma RelayOneMore(ps: seq<Progress>, n: nat)
    requires n < |ps|
    ensures Refs(D.Relayed(ps[..n + 1])) == Refs(D.Relayed(ps[..n])) + if ps[n].Refers? then [ps[n].ref] else []
    ensures States(D.Relayed(ps[..n + 1])) == States(D.Relayed(ps[..n]))
    ensures RefsIn(ps[..n + 1]) == RefsIn(ps[..n]) + if ps[n].Refers? then [ps[n].ref] else []
  {
    D.RelayedGrows(ps, n);
    ProjectionsOfSum(D.Relayed(ps[..n]), [BodyOf(D.Funnel(ps, n))]);
    FunnelKeepsUnit(ps, n);
    RefsInGrows(ps, n);
  }

  /** The wire of an undisturbed run: the stream's artifacts in order, and exactly three states. */
  lemma EngineWire(ps: seq<Progress>, o: D.Outcome)
    ensures var bs := D.Expected(ps, o, D.Never, "");
      Refs(bs) == RefsIn(ps) && States(bs) == [Submitted, Working, o.state]
  {
    var relayed, backstop := D.Relayed(ps), D.Backstop(ps, o);
    var opening := [StatusBody(Submitted, ""), StatusBody(Working, "")];
    var closing := [StatusBody(o.state, o.reason)];
    FourParts(opening, relayed, backstop, closing);
    assert ps[..|ps|] == ps;
    RelayKeepsRefs(ps, |ps|);
    BackstopIsAMessage(ps, o);
    Opening();
    OneBody(StatusBody(o.state, o.reason));
  }

  lemma BackstopIsAMessage(ps: seq<Progress>, o: D.Outcome)
    ensures Refs(D.Backstop(ps, o)) == [] && States(D.Backstop(ps, o)) == []
  {
    if D.Backstop(ps, o) != [] { OneBody(D.Backstop(ps, o)[0]); }
  }

  lemma Opening()
    ensures var b := [StatusBody(Submitted, ""), StatusBody(Working, "")];
      Refs(b) == [] && States(b) == [Submitted, Working]
  {
    var a, b := StatusBody(Submitted, ""), StatusBody(Working, "");
    assert [a, b] == [a] + [b];
    ProjectionsOfSum([a], [b]);
    OneBody(a);
    OneBody(b);
  }

  lemma EngineRelaysTools(ps: seq<Progress>, o: D.Outcome, i: nat)
    requires i < |ps| && ps[i] == Reports(Tool)
    ensures HasKind(D.Expected(ps, o, D.Never, ""), Tool)
  {
    assert D.Expected(ps, o, D.Never, "")[2 + i] == D.Relayed(ps)[i];
  }

  // ---------- the plan ----------

  function RefFor(kind: string): ArtifactRef {
    ArtifactRef(kind, WORK, "coord://artifacts/" + WORK + "/" + kind, SHA)
  }

  lemma RefForOk(kind: string)
    ensures RefOk(RefFor(kind)) <==> kind != ""
    ensures RefFor(kind).kind == kind
  {
    assert |SHA| == 64;
  }

  /** A message, a tool call and its result, and a usage report. */
  const PREAMBLE: seq<Progress> := [Says("starting run", Untiered), Reports(Tool), Reports(Tool), Reports(Usage)]

  /** The plan emits the preamble and one artifact reference per advertised kind, in order. */
  method ConformantPlan(kinds: seq<string>) returns (plan: seq<Progress>, ghost refs: seq<ArtifactRef>)
    ensures |plan| == 4 + |kinds| && plan[..4] == PREAMBLE && RefsIn(plan) == refs
    ensures |refs| == |kinds| && forall i | 0 <= i < |refs| ::
      refs[i].kind == kinds[i] && (RefOk(refs[i]) <==> kinds[i] != "")
  {
    plan, refs := PREAMBLE, [];
    assert RefsIn(plan) == [] by { PreambleHasNoRefs(); }
    for n := 0 to |kinds|
      invariant |plan| == 4 + n && plan[..4] == PREAMBLE && RefsIn(plan) == refs && |refs| == n
      invariant forall i | 0 <= i < n :: refs[i].kind == kinds[i] && (RefOk(refs[i]) <==> kinds[i] != "")
    {
      ghost var before := plan;
      var ref := RefFor(kinds[n]);
      RefForOk(kinds[n]);
      plan := plan + [Refers(ref)];
      refs := refs + [ref];
      assert plan[..|plan| - 1] == before;
      assert plan[..4] == before[..4];
    }
  }

  lemma PreambleHasNoRefs()
    ensures RefsIn(PREAMBLE) == []
  {
    PlainStream(PREAMBLE);
  }

  lemma {:induction false} PlainStream(ps: seq<Progress>)
    requires forall i | 0 <= i < |ps| :: !ps[i].Refers?
    ensures RefsIn(ps) == []
  {
    if ps != [] { PlainStream(ps[..|ps| - 1]); }
  }

  /** The three log checks of one suite run over a finished task. */
  method CheckTask(caps: Capabilities, task: Task) returns (sse: bool, artifacts: bool, honesty: bool)
    requires task.Valid() && IsTerminal(task.state) && task.id == RUN
    ensures task.Bodies() != [] && (sse <==> task.Bodies()[0].kind == Status)
    ensures var refs := Refs(task.Bodies()); artifacts <==> refs != [] && forall i | 0 <= i < |refs| :: RefOk(refs[i])
    ensures honesty <==> Honest(caps, task.Bodies(), 1)
  {
    sse := CheckSSE(task.log);
    artifacts := CheckArtifacts(task.log);
    honesty := CheckCapabilityHonesty(caps, task.log, 1);
  }

  /** The verdicts of one suite run over the engine, for an advertised capability set. */
  method SuiteOverEngine(caps: Capabilities) returns (sse: bool, artifacts: bool, honesty: bool)
    ensures sse
    ensures artifacts <==> caps.artifactKinds != [] && "" !in caps.artifactKinds
    ensures honesty <==> caps.toolCalls
  {
    var plan, refs := ConformantPlan(caps.artifactKinds);
    var outcome := D.Ends(Completed, "");
    var task := D.RunTask(RUN, plan, outcome, D.Never, "");
    SuiteWire(plan, outcome);
    VerdictsFromWire(caps, task.Bodies(), refs);
    sse, artifacts, honesty := CheckTask(caps, task);
  }

  /** What the checks read of the wire of an undisturbed run that starts with the preamble. */
  lemma SuiteWire(plan: seq<Progress>, outcome: D.Outcome)
    requires |plan| >= 4 && plan[..4] == PREAMBLE
    ensures var bs := D.Expected(plan, outcome, D.Never, "");
      && Refs(bs) == RefsIn(plan) && States(bs) == [Submitted, Working, outcome.state] && HasKind(bs, Tool)
      && bs != [] && bs[0].kind == Status
  {
    EngineWire(plan, outcome);
    assert plan[1] == plan[..4][1];
    EngineRelaysTools(plan, outcome, 1);
  }

  lemma VerdictsFromWire(caps: Capabilities, bs: seq<Body>, refs: seq<ArtifactRef>)
    requires Refs(bs) == refs && States(bs) == [Submitted, Working, Completed] && HasKind(bs, Tool)
    requires |refs| == |caps.artifactKinds|
    requires forall i | 0 <= i < |refs| ::
      refs[i].kind == caps.artifactKinds[i] && (RefOk(refs[i]) <==> caps.artifactKinds[i] != "")
    ensures (refs != [] && forall i | 0 <= i < |refs| :: RefOk(refs[i]))
       <==> (caps.artifactKinds != [] && "" !in caps.artifactKinds)
    ensures Honest(caps, bs, 1) <==> caps.toolCalls
  {
  }
}
