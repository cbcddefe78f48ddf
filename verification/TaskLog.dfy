/** The run-event wire: task states, event kinds and payloads. */
module Wire {
  datatype TaskState = Submitted | Working | InputRequired | AuthRequired | Completed | Failed | Canceled

  predicate IsTerminal(s: TaskState) { s.Completed? || s.Failed? || s.Canceled? }

  datatype EventKind = Status | Message | Tool | SkillLoad | Artifact | Usage | Auth | RateLimited

  datatype Tier = Thinking | Deliverable | Untiered

  datatype ArtifactRef = ArtifactRef(kind: string, workItem: string, uri: string, sha256: string)

  datatype Payload =
    | StatusOf(state: TaskState, reason: string)
    | MessageOf(text: string, tier: Tier)
    | ArtifactOf(ref: ArtifactRef)
    | Opaque

  datatype Body = Body(kind: EventKind, payload: Payload)

  datatype Event = Event(seqNo: nat, task: string, body: Body)

  /** The kinds whose payload this model does not look into. */
  type Signal = k: EventKind | k.Tool? || k.SkillLoad? || k.Usage? || k.Auth? || k.RateLimited? witness Tool

  /** One unit of runtime progress; `Unknown` is any kind the shim does not recognise. */
  datatype Progress =
    | Says(text: string, tier: Tier)
    | Refers(ref: ArtifactRef)
    | Reports(kind: Signal)
    | Unknown

  /** The log's numbers are 1..n, without a gap. */
  ghost predicate Numbered(log: seq<Event>) {
    forall i | 0 <= i < |log| :: log[i].seqNo == i + 1
  }

  /** Numbered, and every event carries this task's id. */
  ghost predicate NumberedFor(id: string, log: seq<Event>) {
    Numbered(log) && forall i | 0 <= i < |log| :: log[i].task == id
  }

  function StatusBody(state: TaskState, reason: string): Body { Body(Status, StatusOf(state, reason)) }
}

/** One task's server-side record: its state and its append-only, numbered event log. */
module TaskRecord {
  import opened Wire

  class Task {
    const id: string
    var state: TaskState
    var reason: string
    var lastSeq: nat
    var log: seq<Event>
    var done: bool

    /** The log is numbered 1..n without a gap, and a terminal task's log ends in its terminal status. */
    ghost predicate Valid()
      reads this
    {
      && NumberedFor(id, log) && lastSeq == |log|
      && (IsTerminal(state) ==> log != [] && log[|log| - 1].body == StatusBody(state, reason))
    }

    ghost function Bodies(): seq<Body>
      reads this
    {
      BodiesOf(log)
    }

    /** The record as it is registered: submitted, and nothing on its log yet. */
    constructor (id: string)
      ensures Valid() && this.id == id && state == Submitted && !done && Bodies() == []
    {
      this.id := id;
      state, reason, lastSeq, done := Submitted, "", 0, false;
      log := [];
    }

    /** Allocate the next number and append, as one locked step. */
    method Append(body: Body)
      requires NumberedFor(id, log) && lastSeq == |log|
      modifies this`lastSeq, this`log
      ensures NumberedFor(id, log) && lastSeq == |log| && log == old(log) + [Event(lastSeq, id, body)]
      ensures Bodies() == old(Bodies()) + [body]
    {
      lastSeq := lastSeq + 1;
      log := log + [Event(lastSeq, id, body)];
    }

    /** A late status cannot resurrect a terminal task. */
    method SetState(next: TaskState, why: string)
      requires Valid()
      modifies this
      ensures Valid() && done == old(done)
      ensures IsTerminal(old(state)) ==> state == old(state) && reason == old(reason) && log == old(log)
      ensures !IsTerminal(old(state)) ==>
        state == next && reason == why && Bodies() == old(Bodies()) + [StatusBody(next, why)]
    {
      if IsTerminal(state) { return; }
      state, reason := next, why;
      Append(StatusBody(next, why));
    }

    /**
     The first caller to end the task closes the stream. It owns the state, and later calls are no-ops,
     if the state it brings is terminal; the code takes whatever state the runner reported.
     */
    method Terminate(final: TaskState, why: string)
      requires Valid()
      modifies this
      ensures Valid() && (IsTerminal(state) <==> IsTerminal(old(state)) || IsTerminal(final))
      ensures IsTerminal(old(state)) ==> state == old(state) && reason == old(reason) && log == old(log) && done == old(done)
      ensures !IsTerminal(old(state)) ==>
        state == final && reason == why && done && Bodies() == old(Bodies()) + [StatusBody(final, why)]
    {
      if IsTerminal(state) { return; }
      state, reason := final, why;
      Append(StatusBody(final, why));
      done := true;
    }

    /** Progress after the end is dropped. */
    method EmitProgress(p: Progress)
      requires Valid()
      modifies this`lastSeq, this`log
      ensures Valid()
      ensures IsTerminal(state) ==> log == old(log)
      ensures !IsTerminal(state) ==> Bodies() == old(Bodies()) + [BodyOf(p)]
    {
      if IsTerminal(state) { return; }
      Append(BodyOf(p));
    }
  }

  function BodiesOf(log: seq<Event>): (b: seq<Body>)
    ensures |b| == |log| && forall i | 0 <= i < |b| :: b[i] == log[i].body
  {
    seq(|log|, i requires 0 <= i < |log| => log[i].body)
  }

  function BodyOf(p: Progress): Body {
    match p
    case Says(text, tier) => Body(Message, MessageOf(text, tier))
    case Refers(ref) => Body(Artifact, ArtifactOf(ref))
    case Reports(kind) => Body(kind, Opaque)
    case Unknown => Body(Message, MessageOf("", Untiered))
  }
}

/**
 Subscribers of a task stream: any number of appends, the close, and the scheduling of the
 subscriber's loop interleave freely. The stream itself takes appends even after its close; that none
 come is the task record's doing, and only when it was closed on a terminal state. The subscriber scans
 past the events it was told to skip, then waits for the log to grow, and after a wait takes the next
 event without scanning again.
 */
module Subscription {
  import opened Wire

  datatype Pc = Scanning | Waiting | Closed

  datatype State = State(log: seq<Event>, done: bool, from: nat, cursor: nat, pc: Pc, delivered: seq<Event>)

  datatype Action = AppendEvent(task: string, body: Body) | Finish | Run

  /** The scan loop: past every buffered event numbered at most `from`. */
  function Scan(log: seq<Event>, from: nat, i: nat): (r: nat)
    ensures i <= r && (r < |log| ==> log[r].seqNo > from)
    decreases |log| - i
  {
    if i < |log| && log[i].seqNo <= from then Scan(log, from, i + 1) else i
  }

  function Take(s: State, i: nat): State {
    if i < |s.log| then s.(cursor := i + 1, pc := Scanning, delivered := s.delivered + [s.log[i]])
    else s.(cursor := i, pc := if s.done then Closed else Waiting)
  }

  function Step(s: State, a: Action): State {
    match a
    case AppendEvent(task, body) => s.(log := s.log + [Event(|s.log| + 1, task, body)])
    case Finish => s.(done := true)
    case Run =>
      match s.pc
      case Closed => s
      case Scanning => Take(s, Scan(s.log, s.from, s.cursor))
      case Waiting => Take(s, s.cursor)
  }

  function StateAt(s: State, acts: seq<Action>, k: nat): State
    requires k <= |acts|
  {
    if k == 0 then s else Step(StateAt(s, acts, k - 1), acts[k - 1])
  }

  /** A subscription that has just been made. */
  ghost predicate Fresh(s: State) {
    Numbered(s.log) && s.cursor == 0 && s.pc == Scanning && s.delivered == []
  }

  /** Nothing is appended once the stream is closed. */
  ghost predicate Sealed(s: State, acts: seq<Action>, k: nat)
    requires k <= |acts|
  {
    forall j: nat | j < k :: SealedAt(s, acts, j)
  }

  ghost predicate SealedAt(s: State, acts: seq<Action>, j: nat)
    requires j < |acts|
  {
    acts[j].AppendEvent? ==> !StateAt(s, acts, j).done
  }

  lemma {:induction false} ScanStops(log: seq<Event>, from: nat, i: nat)
    requires Numbered(log)
    ensures Scan(log, from, i) == if i >= |log| || i >= from then i else if from <= |log| then from else |log|
    decreases |log| - i
  {
    if i < |log| && log[i].seqNo <= from { ScanStops(log, from, i + 1); }
  }

  // ---------- resuming from a number already logged ----------

  /** The events handed over are the log's next ones. */
  ghost predicate Resumed(s: State) {
    var n := s.from + |s.delivered|;
    && Numbered(s.log) && n <= |s.log|
    && (forall i | 0 <= i < |s.delivered| :: s.delivered[i] == s.log[s.from + i])
    && (s.cursor == n || (s.cursor == 0 && s.delivered == [] && s.pc == Scanning))
    && (s.pc == Closed ==> s.done)
  }

  lemma TakeKeepsResumed(s: State, i: nat)
    requires Resumed(s) && i == s.from + |s.delivered| && s.pc != Closed
    ensures Resumed(Take(s, i))
    ensures Take(s, i).pc == Closed ==> s.from + |Take(s, i).delivered| == |s.log|
  {
  }

  lemma StepKeepsResumed(s: State, a: Action)
    requires Resumed(s)
    ensures Resumed(Step(s, a))
    ensures Step(s, a).pc == Closed && s.pc != Closed ==>
      Step(s, a).log == s.log && s.from + |Step(s, a).delivered| == |s.log|
  {
    if a.Run? && s.pc != Closed {
      ScanStops(s.log, s.from, s.cursor);
      TakeKeepsResumed(s, s.from + |s.delivered|);
    }
  }

  lemma {:induction false} ResumedAt(s: State, acts: seq<Action>, k: nat)
    requires Fresh(s) && s.from <= |s.log| && k <= |acts|
    ensures Resumed(StateAt(s, acts, k)) && StateAt(s, acts, k).from == s.from
  {
    if k > 0 {
      ResumedAt(s, acts, k - 1);
      StepKeepsResumed(StateAt(s, acts, k - 1), acts[k - 1]);
    }
  }

  /** When a subscriber was closed it had received everything logged up to then. */
  lemma {:induction false} ClosedWithEverything(s: State, acts: seq<Action>, k: nat) returns (c: nat)
    requires Fresh(s) && s.from <= |s.log| && k <= |acts| && StateAt(s, acts, k).pc == Closed
    ensures c <= k && StateAt(s, acts, c).done && s.from <= |StateAt(s, acts, c).log|
    ensures StateAt(s, acts, k).delivered == StateAt(s, acts, c).log[s.from..]
    ensures Sealed(s, acts, k) ==> StateAt(s, acts, k).log == StateAt(s, acts, c).log
  {
    var before := StateAt(s, acts, k - 1);
    ResumedAt(s, acts, k - 1);
    ResumedAt(s, acts, k);
    if before.pc == Closed {
      c := ClosedWithEverything(s, acts, k - 1);
      assert Sealed(s, acts, k) ==> Sealed(s, acts, k - 1) && SealedAt(s, acts, k - 1);
    } else {
      StepKeepsResumed(before, acts[k - 1]);
      c := k;
    }
  }

  /**
   Gap-free resume: from any number already logged, under any interleaving, the subscriber has received
   exactly the next events in order; if nothing is appended after the close, then once its channel is closed
   it has received them all.
   */
  lemma ResumeIsGapFree(s: State, acts: seq<Action>, k: nat)
    requires Fresh(s) && s.from <= |s.log| && k <= |acts|
    ensures var t := StateAt(s, acts, k);
      && s.from + |t.delivered| <= |t.log|
      && t.delivered == t.log[s.from..s.from + |t.delivered|]
      && (t.pc == Closed ==> t.done)
      && (t.pc == Closed && Sealed(s, acts, k) ==> t.delivered == t.log[s.from..])
      && forall i | 0 <= i < |t.delivered| :: t.delivered[i].seqNo == s.from + i + 1
  {
    ResumedAt(s, acts, k);
    DeliveredIsSlice(StateAt(s, acts, k));
    if StateAt(s, acts, k).pc == Closed {
      var c := ClosedWithEverything(s, acts, k);
    }
  }

  lemma DeliveredIsSlice(s: State)
    requires Resumed(s)
    ensures s.delivered == s.log[s.from..s.from + |s.delivered|]
    ensures forall i | 0 <= i < |s.delivered| :: s.delivered[i].seqNo == s.from + i + 1
  {
  }

  /** The subscriber alone, n times. */
  function Runs(s: State, n: nat): State
    decreases n
  {
    if n == 0 then s else Runs(Step(s, Run), n - 1)
  }

  lemma RunOnClosed(s: State)
    requires Resumed(s) && s.done && s.pc != Closed
    ensures var t := Step(s, Run);
      && t.log == s.log && t.from == s.from && t.done
      && if s.from + |s.delivered| < |s.log| then |t.delivered| == |s.delivered| + 1 && t.pc != Closed
         else t.delivered == s.delivered && t.pc == Closed
  {
    if s.pc == Scanning { ScanStops(s.log, s.from, s.cursor); }
  }

  /** Progress: once the stream is closed the subscriber, left to run, hands over the rest and closes. */
  lemma {:induction false} ClosedStreamDrains(s: State) returns (n: nat)
    requires Resumed(s) && s.done
    ensures n <= if s.pc == Closed then 0 else |s.log| - s.from - |s.delivered| + 1
    ensures Runs(s, n).pc == Closed && Runs(s, n).log == s.log
    ensures s.pc != Closed ==> Runs(s, n).delivered == s.log[s.from..]
    decreases |s.log| - s.from - |s.delivered|, s.pc != Closed
  {
    n := 0;
    if s.pc != Closed {
      StepKeepsResumed(s, Run);
      RunOnClosed(s);
      var rest := ClosedStreamDrains(Step(s, Run));
      n := rest + 1;
    }
  }

  // ---------- numbers beyond the log ----------

  /** Only events numbered above `from` ever reach the subscriber. */
  ghost predicate NeverReplays(s: State) {
    forall acts: seq<Action>, k: nat | k <= |acts| ::
      forall e | e in StateAt(s, acts, k).delivered :: e.seqNo > s.from
  }

  /** On a closed stream the subscriber never waits, so it always scans; unless something is appended it delivers nothing. */
  lemma {:induction false} ClosedStreamDeliversNothing(s: State, acts: seq<Action>, k: nat)
    requires Fresh(s) && s.done && s.from > |s.log| && k <= |acts|
    ensures var t := StateAt(s, acts, k);
      && t.done && t.from == s.from && t.pc != Waiting
      && (forall e <- t.delivered :: e.seqNo > s.from)
      && ((forall i | 0 <= i < k :: !acts[i].AppendEvent?) ==> t.delivered == [] && t.log == s.log)
  {
    if k > 0 {
      ClosedStreamDeliversNothing(s, acts, k - 1);
      StepOnClosed(StateAt(s, acts, k - 1), acts[k - 1]);
      var t := StateAt(s, acts, k - 1);
      if t.log == s.log { ScanStops(t.log, t.from, t.cursor); }
    }
  }

  lemma StepOnClosed(s: State, a: Action)
    requires s.done && s.pc != Waiting && forall e <- s.delivered :: e.seqNo > s.from
    ensures var t := Step(s, a);
      t.done && t.pc != Waiting && t.from == s.from && forall e <- t.delivered :: e.seqNo > s.from
  {
  }

  /** A subscriber that asks for a number not yet logged is handed the next event anyway: it waits first and does not scan again. */
  lemma FutureResumeReplays(s: State, task: string, body: Body)
    requires Fresh(s) && !s.done && s.from > |s.log|
    ensures var acts := [Run, AppendEvent(task, body), Run];
      StateAt(s, acts, 3).delivered == [Event(|s.log| + 1, task, body)] && |s.log| + 1 <= s.from
  {
    var acts := [Run, AppendEvent(task, body), Run];
    ScanStops(s.log, s.from, 0);
    assert StateAt(s, acts, 0) == s;
    assert StateAt(s, acts, 1) == s.(cursor := |s.log|, pc := Waiting);
    assert StateAt(s, acts, 2) == Step(StateAt(s, acts, 1), acts[1]);
    assert StateAt(s, acts, 3) == Step(StateAt(s, acts, 2), acts[2]);
  }

  /** The promise "only seq > fromSeq" holds exactly when the number asked for is already in the log, or the stream is closed. */
  lemma NeverReplaysIff(s: State)
    requires Fresh(s)
    ensures NeverReplays(s) <==> s.from <= |s.log| || s.done
  {
    if s.from <= |s.log| || s.done {
      forall acts: seq<Action>, k: nat, e | k <= |acts| && e in StateAt(s, acts, k).delivered
        ensures e.seqNo > s.from
      {
        if s.from <= |s.log| {
          ResumeIsGapFree(s, acts, k);
        } else {
          ClosedStreamDeliversNothing(s, acts, k);
        }
      }
    } else {
      var body := StatusBody(Working, "");
      FutureResumeReplays(s, "", body);
      var acts := [Run, AppendEvent("", body), Run];
      assert StateAt(s, acts, 3).delivered[0] in StateAt(s, acts, 3).delivered;
    }
  }
}

/** Driving one task: the funnel every progress unit passes, the deliverable backstop, and the terminal status. */
module Drive {
  import opened Wire
  import opened TaskRecord

  /** The runner's result; an error from the runner is `Ends(Failed, message)`. */
  datatype Outcome = Ends(state: TaskState, reason: string)

  /**
   When a cancel takes effect: never, before the submitted status, before the working status, after that
   many progress units, or after the outcome was taken and just before the terminal status.
   */
  datatype Cancel = Never | BeforeSubmitted | BeforeWorking | After(units: nat) | BeforeTerminal

  /** The cancel struck before any progress. */
  predicate Early(cancel: Cancel) { cancel.BeforeSubmitted? || cancel.BeforeWorking? }

  predicate Settles(cancel: Cancel) { cancel.Never? || cancel.BeforeTerminal? }

  predicate IsDeliverable(p: Progress) { p.Says? && p.tier == Deliverable }

  predicate SawDeliverable(ps: seq<Progress>) { exists i :: 0 <= i < |ps| && IsDeliverable(ps[i]) }

  /** What unit i becomes on the wire: the first deliverable stands, a later one is demoted to thinking. */
  function Funnel(ps: seq<Progress>, i: nat): Progress
    requires i < |ps|
  {
    if IsDeliverable(ps[i]) && SawDeliverable(ps[..i]) then ps[i].(tier := Thinking) else ps[i]
  }

  function Relayed(ps: seq<Progress>): (b: seq<Body>)
    ensures |b| == |ps| && forall i | 0 <= i < |b| :: b[i] == BodyOf(Funnel(ps, i))
  {
    seq(|ps|, i requires 0 <= i < |ps| => BodyOf(Funnel(ps, i)))
  }

  /** The last message text that was not a deliverable; empty when there is none. */
  function LastText(ps: seq<Progress>): string {
    if ps == [] then ""
    else
      var p := ps[|ps| - 1];
      if p.Says? && p.tier != Deliverable && p.text != "" then p.text else LastText(ps[..|ps| - 1])
  }

  function BackstopText(ps: seq<Progress>, o: Outcome): string {
    if LastText(ps) == "" && o.state == Failed then o.reason else LastText(ps)
  }

  /** The promoted answer of a run whose stream marked none. */
  function Backstop(ps: seq<Progress>, o: Outcome): seq<Body> {
    if SawDeliverable(ps) || o.state == Canceled || BackstopText(ps, o) == "" then []
    else [Body(Message, MessageOf(BackstopText(ps, o), Deliverable))]
  }

  /** The event bodies a driven task leaves. */
  function Expected(ps: seq<Progress>, o: Outcome, cancel: Cancel, why: string): seq<Body>
    requires cancel.After? ==> cancel.units <= |ps|
  {
    match cancel
    case BeforeSubmitted => [StatusBody(Canceled, why)]
    case BeforeWorking => [StatusBody(Submitted, ""), StatusBody(Canceled, why)]
    case After(n) =>
      [StatusBody(Submitted, ""), StatusBody(Working, "")] + Relayed(ps[..n]) + [StatusBody(Canceled, why)]
    case Never =>
      [StatusBody(Submitted, ""), StatusBody(Working, "")] + Relayed(ps) + Backstop(ps, o) + [StatusBody(o.state, o.reason)]
    case BeforeTerminal =>
      [StatusBody(Submitted, ""), StatusBody(Working, "")] + Relayed(ps) + Backstop(ps, o) + [StatusBody(Canceled, why)]
  }

  lemma RelayedGrows(ps: seq<Progress>, n: nat)
    requires n < |ps|
    ensures Relayed(ps[..n + 1]) == Relayed(ps[..n]) + [BodyOf(Funnel(ps, n))]
    ensures SawDeliverable(ps[..n + 1]) <==> SawDeliverable(ps[..n]) || IsDeliverable(ps[n])
    ensures LastText(ps[..n + 1])
         == if ps[n].Says? && ps[n].tier != Deliverable && ps[n].text != "" then ps[n].text else LastText(ps[..n])
  {
    assert ps[..n + 1][..n] == ps[..n];
    forall i | 0 <= i < n ensures Funnel(ps[..n + 1], i) == Funnel(ps[..n], i) {
      assert ps[..n + 1][..i] == ps[..n][..i];
    }
    if SawDeliverable(ps[..n]) {
      var i :| 0 <= i < n && IsDeliverable(ps[..n][i]);
      assert IsDeliverable(ps[..n + 1][i]);
    }
    if IsDeliverable(ps[n]) { assert IsDeliverable(ps[..n + 1][n]); }
    if SawDeliverable(ps[..n + 1]) {
      var i :| 0 <= i < n + 1 && IsDeliverable(ps[..n + 1][i]);
      if i < n { assert IsDeliverable(ps[..n][i]); }
    }
  }

  /** The bodies the progress stream adds before the terminal status of an undisturbed run. */
  function Streamed(ps: seq<Progress>, cancel: Cancel, n: nat, why: string): seq<Body>
    requires n <= |ps|
  {
    match cancel
    case Never => Relayed(ps[..n])
    case BeforeTerminal => Relayed(ps[..n])
    case BeforeSubmitted => []
    case BeforeWorking => []
    case After(units) => if n <= units then Relayed(ps[..n]) else Relayed(ps[..units]) + [StatusBody(Canceled, why)]
  }

  /** Whether the task is over once n units went through the funnel. */
  predicate Over(cancel: Cancel, n: nat) { Early(cancel) || (cancel.After? && n > cancel.units) }

  /** What unit n adds. */
  function Added(ps: seq<Progress>, cancel: Cancel, n: nat, why: string): seq<Body>
    requires n < |ps|
  {
    if Over(cancel, n) then [] else if cancel == After(n) then [StatusBody(Canceled, why)] else [BodyOf(Funnel(ps, n))]
  }

  lemma StreamedGrows(ps: seq<Progress>, cancel: Cancel, n: nat, why: string)
    requires n < |ps|
    ensures Streamed(ps, cancel, n + 1, why) == Streamed(ps, cancel, n, why) + Added(ps, cancel, n, why)
  {
    RelayedGrows(ps, n);
  }

  /** The funnel: demote a second deliverable, remember the last text, append. */
  method Emit(tk: Task, ps: seq<Progress>, n: nat, saw0: bool, lastText0: string) returns (saw: bool, lastText: string)
    requires tk.Valid() && n < |ps| && saw0 == SawDeliverable(ps[..n]) && lastText0 == LastText(ps[..n])
    modifies tk`log, tk`lastSeq
    ensures tk.Valid()
    ensures tk.Bodies() == old(tk.Bodies()) + if IsTerminal(tk.state) then [] else [BodyOf(Funnel(ps, n))]
    ensures saw == SawDeliverable(ps[..n + 1]) && lastText == LastText(ps[..n + 1])
  {
    RelayedGrows(ps, n);
    saw, lastText := saw0, lastText0;
    var p := ps[n];
    if p.Says? {
      if p.tier == Deliverable {
        if saw { p := p.(tier := Thinking); } else { saw := true; }
      } else if p.text != "" {
        lastText := p.text;
      }
    }
    tk.EmitProgress(p);
  }

  /** One unit, with the cancel striking just before it or not. */
  method EmitUnlessCanceled(
    tk: Task, ps: seq<Progress>, n: nat, cancel: Cancel, why: string, saw0: bool, lastText0: string
  ) returns (saw: bool, lastText: string)
    requires tk.Valid() && n < |ps| && IsTerminal(tk.state) == Over(cancel, n)
    requires saw0 == SawDeliverable(ps[..n]) && lastText0 == LastText(ps[..n])
    modifies tk
    ensures tk.Valid() && IsTerminal(tk.state) == Over(cancel, n + 1)
    ensures if cancel == After(n) then tk.state == Canceled && tk.done else tk.state == old(tk.state) && tk.done == old(tk.done)
    ensures tk.Bodies() == old(tk.Bodies()) + Added(ps, cancel, n, why)
    ensures saw == SawDeliverable(ps[..n + 1]) && lastText == LastText(ps[..n + 1])
  {
    if cancel == After(n) { tk.Terminate(Canceled, why); }
    saw, lastText := Emit(tk, ps, n, saw0, lastText0);
  }

  /** The emit loop: CancelTask may strike before any unit. */
  method Feed(tk: Task, ps: seq<Progress>, cancel: Cancel, why: string) returns (saw: bool, lastText: string)
    requires tk.Valid() && IsTerminal(tk.state) == Over(cancel, 0)
    modifies tk
    ensures tk.Valid() && IsTerminal(tk.state) == Over(cancel, |ps|)
    ensures Over(cancel, |ps|) ==> tk.state == if Early(cancel) then old(tk.state) else Canceled
    ensures Over(cancel, |ps|) ==> tk.done == (cancel.After? || old(tk.done))
    ensures tk.Bodies() == old(tk.Bodies()) + Streamed(ps, cancel, |ps|, why)
    ensures saw == SawDeliverable(ps) && lastText == LastText(ps)
  {
    saw, lastText := false, "";
    ghost var start := tk.Bodies();
    assert start + [] == start;
    for n := 0 to |ps|
      invariant tk.Valid() && IsTerminal(tk.state) == Over(cancel, n)
      invariant Over(cancel, n) ==> tk.state == if Early(cancel) then old(tk.state) else Canceled
      invariant Over(cancel, n) ==> tk.done == (cancel.After? || old(tk.done))
      invariant tk.Bodies() == start + Streamed(ps, cancel, n, why)
      invariant saw == SawDeliverable(ps[..n]) && lastText == LastText(ps[..n])
    {
      StreamedGrows(ps, cancel, n, why);
      saw, lastText := EmitUnlessCanceled(tk, ps, n, cancel, why, saw, lastText);
    }
    assert ps[..|ps|] == ps;
  }

  /** The deliverable backstop and the terminal status. */
  method Settle(tk: Task, ps: seq<Progress>, o: Outcome, saw: bool, lastText: string, canceled: bool, why: string)
    requires tk.Valid() && !IsTerminal(tk.state)
    requires saw == SawDeliverable(ps) && lastText == LastText(ps)
    modifies tk
    ensures tk.Valid() && tk.done && (IsTerminal(tk.state) <==> canceled || IsTerminal(o.state))
    ensures tk.Bodies() == old(tk.Bodies()) + Backstop(ps, o) +
      [if canceled then StatusBody(Canceled, why) else StatusBody(o.state, o.reason)]
  {
    assert tk.Bodies() + [] == tk.Bodies();
    if !saw && o.state != Canceled {
      var text := lastText;
      if text == "" && o.state == Failed && o.reason != "" { text := o.reason; }
      if text != "" { tk.EmitProgress(Says(text, Deliverable)); }
    }
    if canceled { tk.Terminate(Canceled, why); }
    tk.Terminate(o.state, o.reason);
  }

  /** The statuses a task opens with. */
  function Opening(cancel: Cancel, why: string): seq<Body> {
    match cancel
    case BeforeSubmitted => [StatusBody(Canceled, why)]
    case BeforeWorking => [StatusBody(Submitted, ""), StatusBody(Canceled, why)]
    case _ => [StatusBody(Submitted, ""), StatusBody(Working, "")]
  }

  /** Register the task, publish it, report it submitted and working, unless a cancel gets there first. */
  method Submit(id: string, cancel: Cancel, why: string) returns (tk: Task)
    ensures fresh(tk) && tk.Valid() && tk.id == id
    ensures IsTerminal(tk.state) == tk.done == Early(cancel)
    ensures tk.Bodies() == Opening(cancel, why)
  {
    tk := new Task(id);
    if cancel.BeforeSubmitted? { tk.Terminate(Canceled, why); }
    tk.SetState(Submitted, "");
    if cancel.BeforeWorking? { tk.Terminate(Canceled, why); }
    tk.SetState(Working, "");
  }

  /** Submit and drive one task to its end. */
  method RunTask(id: string, ps: seq<Progress>, o: Outcome, cancel: Cancel, why: string) returns (tk: Task)
    requires cancel.After? ==> cancel.units <= |ps|
    ensures fresh(tk) && tk.Valid() && tk.done && tk.id == id
    ensures tk.state in {Completed, Failed, Canceled} <==> cancel != Never || o.state in {Completed, Failed, Canceled}
    ensures tk.Bodies() == Expected(ps, o, cancel, why)
  {
    tk := Submit(id, cancel, why);
    var saw, lastText := Feed(tk, ps, cancel, why);
    ExpectedInParts(ps, o, cancel, why);
    if cancel == After(|ps|) { tk.Terminate(Canceled, why); }
    if Settles(cancel) {
      Settle(tk, ps, o, saw, lastText, cancel.BeforeTerminal?, why);
    } else {
      tk.Terminate(Canceled, "canceled");
    }
  }

  /** The opening statuses, what the stream adds, and the ending. */
  lemma ExpectedInParts(ps: seq<Progress>, o: Outcome, cancel: Cancel, why: string)
    requires cancel.After? ==> cancel.units <= |ps|
    ensures Expected(ps, o, cancel, why) ==
      Opening(cancel, why)
      + Streamed(ps, cancel, |ps|, why)
      + (if Settles(cancel) then Backstop(ps, o) else [])
      + Ending(ps, o, cancel, why)
  {
    assert ps[..|ps|] == ps;
  }

  /** The status that ends the wire, unless a cancel already put it there. */
  function Ending(ps: seq<Progress>, o: Outcome, cancel: Cancel, why: string): seq<Body> {
    if cancel.Never? then [StatusBody(o.state, o.reason)]
    else if cancel == After(|ps|) || cancel.BeforeTerminal? then [StatusBody(Canceled, why)] else []
  }

  // ---------- exactly one deliverable ----------

  predicate DeliverableBody(b: Body) { b.payload.MessageOf? && b.payload.tier == Deliverable }

  function Deliverables(bs: seq<Body>): nat {
    if bs == [] then 0 else Deliverables(bs[..|bs| - 1]) + if DeliverableBody(bs[|bs| - 1]) then 1 else 0
  }

  lemma {:induction false} DeliverablesOfSum(a: seq<Body>, b: seq<Body>)
    ensures Deliverables(a + b) == Deliverables(a) + Deliverables(b)
  {
    if b == [] { assert a + b == a; }
    else {
      assert (a + b)[..|a + b| - 1] == a + b[..|b| - 1];
      DeliverablesOfSum(a, b[..|b| - 1]);
    }
  }

  lemma {:induction false} RelayedDeliverables(ps: seq<Progress>, n: nat)
    requires n <= |ps|
    ensures Deliverables(Relayed(ps[..n])) == if SawDeliverable(ps[..n]) then 1 else 0
  {
    if n > 0 {
      RelayedDeliverables(ps, n - 1);
      RelayedGrows(ps, n - 1);
      DeliverablesOfSum(Relayed(ps[..n - 1]), [BodyOf(Funnel(ps, n - 1))]);
      assert Deliverables([BodyOf(Funnel(ps, n - 1))]) == Deliverables([]) + if DeliverableBody(BodyOf(Funnel(ps, n - 1))) then 1 else 0;
    }
  }

  lemma OneBody(b: Body)
    ensures Deliverables([b]) == if DeliverableBody(b) then 1 else 0
  {
    assert [b][..0] == [];
  }

  /** Whether the run has an answer to deliver: one it marked, or, if it was not cancelled, some text or a failure reason. */
  predicate HasAnswer(ps: seq<Progress>, o: Outcome, cancel: Cancel)
    requires cancel.After? ==> cancel.units <= |ps|
  {
    match cancel
    case BeforeSubmitted => false
    case BeforeWorking => false
    case After(n) => SawDeliverable(ps[..n])
    case _ => SawDeliverable(ps) || (o.state != Canceled && BackstopText(ps, o) != "")
  }

  /** Every run puts at most one deliverable on the wire, and exactly one when it has an answer. */
  lemma ExactlyOneDeliverable(ps: seq<Progress>, o: Outcome, cancel: Cancel, why: string)
    requires cancel.After? ==> cancel.units <= |ps|
    ensures Deliverables(Expected(ps, o, cancel, why)) == if HasAnswer(ps, o, cancel) then 1 else 0
  {
    ExpectedInParts(ps, o, cancel, why);
    var promoted := if Settles(cancel) then Backstop(ps, o) else [];
    DeliverablesOfFour(Opening(cancel, why), Streamed(ps, cancel, |ps|, why), promoted, Ending(ps, o, cancel, why));
    FrameHasNoDeliverable(ps, o, cancel, why);
    StreamedDeliverables(ps, cancel, why);
    BackstopDeliverables(ps, o);
    assert ps[..|ps|] == ps;
  }

  lemma FrameHasNoDeliverable(ps: seq<Progress>, o: Outcome, cancel: Cancel, why: string)
    ensures Deliverables(Opening(cancel, why)) == 0 && Deliverables(Ending(ps, o, cancel, why)) == 0
  {
    NoDeliverableBody(Opening(cancel, why));
    NoDeliverableBody(Ending(ps, o, cancel, why));
  }

  lemma BackstopDeliverables(ps: seq<Progress>, o: Outcome)
    ensures Deliverables(Backstop(ps, o)) ==
      if SawDeliverable(ps) || o.state == Canceled || BackstopText(ps, o) == "" then 0 else 1
  {
    if Backstop(ps, o) != [] { OneBody(Backstop(ps, o)[0]); }
  }

  lemma DeliverablesOfFour(a: seq<Body>, b: seq<Body>, c: seq<Body>, d: seq<Body>)
    ensures Deliverables(a + b + c + d) == Deliverables(a) + Deliverables(b) + Deliverables(c) + Deliverables(d)
  {
    DeliverablesOfSum(a + b + c, d);
    DeliverablesOfSum(a + b, c);
    DeliverablesOfSum(a, b);
  }

  lemma StreamedDeliverables(ps: seq<Progress>, cancel: Cancel, why: string)
    requires cancel.After? ==> cancel.units <= |ps|
    ensures Deliverables(Streamed(ps, cancel, |ps|, why)) ==
      if SawDeliverable(ps[..if cancel.After? then cancel.units else if Early(cancel) then 0 else |ps|]) then 1 else 0
  {
    if cancel.After? {
      RelayedDeliverables(ps, cancel.units);
      DeliverablesOfSum(Relayed(ps[..cancel.units]), [StatusBody(Canceled, why)]);
      OneBody(StatusBody(Canceled, why));
    } else if !Early(cancel) {
      RelayedDeliverables(ps, |ps|);
    }
  }

  lemma {:induction false} NoDeliverableBody(bs: seq<Body>)
    ensures Deliverables(bs) == 0 <==> forall i | 0 <= i < |bs| :: !DeliverableBody(bs[i])
  {
    if bs != [] { NoDeliverableBody(bs[..|bs| - 1]); }
  }

  // ---------- a cancelled run and the promoted answer ----------

  /** How many units went through the funnel onto the wire. */
  function Taken(ps: seq<Progress>, cancel: Cancel): nat {
    match cancel
    case BeforeSubmitted => 0
    case BeforeWorking => 0
    case After(n) => n
    case _ => |ps|
  }

  /** The wire holds a deliverable that no unit of the stream had marked: the backstop promoted it. */
  ghost predicate CarriesPromotion(ps: seq<Progress>, o: Outcome, cancel: Cancel, why: string)
    requires cancel.After? ==> cancel.units <= |ps|
  {
    Deliverables(Expected(ps, o, cancel, why)) > Deliverables(Relayed(ps[..Taken(ps, cancel)]))
  }

  /**
   A cancelled run carries a promoted answer exactly when the cancel struck between the promotion and the
   terminal status, the stream had marked no answer, and there was text or a failure reason to promote.
   */
  lemma CancelledRunPromotesIff(ps: seq<Progress>, o: Outcome, cancel: Cancel, why: string)
    requires cancel != Never && (cancel.After? ==> cancel.units <= |ps|)
    ensures CarriesPromotion(ps, o, cancel, why)
       <==> cancel.BeforeTerminal? && !SawDeliverable(ps) && o.state != Canceled && BackstopText(ps, o) != ""
  {
    ExactlyOneDeliverable(ps, o, cancel, why);
    RelayedDeliverables(ps, Taken(ps, cancel));
    assert ps[..|ps|] == ps;
    assert !SawDeliverable(ps[..0]);
  }

  /** A completed run that said one thing, cancelled at the last moment: the answer stands before the cancelled status. */
  lemma LateCancelKeepsPromotion()
    ensures var ps := [Says("done", Untiered)];
      && Expected(ps, Ends(Completed, ""), BeforeTerminal, "stop") ==
         [StatusBody(Submitted, ""), StatusBody(Working, ""), Body(Message, MessageOf("done", Untiered)),
          Body(Message, MessageOf("done", Deliverable)), StatusBody(Canceled, "stop")]
      && CarriesPromotion(ps, Ends(Completed, ""), BeforeTerminal, "stop")
  {
    var ps, o := [Says("done", Untiered)], Ends(Completed, "");
    assert ps[..0] == [] && Funnel(ps, 0) == ps[0];
    assert Relayed(ps) == [Body(Message, MessageOf("done", Untiered))];
    assert LastText(ps) == "done";
    CancelledRunPromotesIff(ps, o, BeforeTerminal, "stop");
  }

  // ---------- the wire, unit by unit ----------

  /** A message with text that is not marked as the answer. */
  predicate SaysText(p: Progress) { p.Says? && p.tier != Deliverable && p.text != "" }

  ghost predicate LastTextAt(ps: seq<Progress>, i: nat) {
    i < |ps| && SaysText(ps[i]) && forall j | i < j < |ps| :: !SaysText(ps[j])
  }

  lemma {:induction false} LastTextIs(ps: seq<Progress>)
    ensures forall i: nat | LastTextAt(ps, i) :: LastText(ps) == ps[i].text
    ensures (forall i | 0 <= i < |ps| :: !SaysText(ps[i])) ==> LastText(ps) == ""
  {
    if ps != [] {
      var front := ps[..|ps| - 1];
      LastTextIs(front);
      forall i: nat | LastTextAt(ps, i) ensures LastText(ps) == ps[i].text {
        if i < |ps| - 1 { assert LastTextAt(front, i) && !SaysText(ps[|ps| - 1]); }
      }
    }
  }

  /** The wire has exactly one deliverable, and it says this. */
  ghost predicate Answers(bs: seq<Body>, text: string) {
    && Deliverables(bs) == 1
    && forall i | 0 <= i < |bs| && DeliverableBody(bs[i]) :: bs[i] == Body(Message, MessageOf(text, Deliverable))
  }

  /**
   What a settled run that marked no answer answers: the last message text of its stream; failing that, when it
   failed with a reason, the reason; and nothing otherwise.
   */
  lemma PromotedAnswer(ps: seq<Progress>, o: Outcome, cancel: Cancel, why: string)
    requires (cancel.Never? || cancel.BeforeTerminal?) && o.state != Canceled
    requires forall i | 0 <= i < |ps| :: !IsDeliverable(ps[i])
    ensures forall i: nat | LastTextAt(ps, i) :: Answers(Expected(ps, o, cancel, why), ps[i].text)
    ensures (forall i | 0 <= i < |ps| :: !SaysText(ps[i])) ==>
      if o.state == Failed && o.reason != "" then Answers(Expected(ps, o, cancel, why), o.reason)
      else Deliverables(Expected(ps, o, cancel, why)) == 0
  {
    LastTextIs(ps);
    ExactlyOneDeliverable(ps, o, cancel, why);
    var bs, n := Expected(ps, o, cancel, why), |ps|;
    assert forall i | 0 <= i < n :: Funnel(ps, i) == ps[i];
    forall i | 0 <= i < |bs| && DeliverableBody(bs[i]) ensures bs[i] == Body(Message, MessageOf(BackstopText(ps, o), Deliverable)) {
      UnmarkedUnits(ps, o, cancel, why, i);
    }
  }

  lemma UnmarkedUnits(ps: seq<Progress>, o: Outcome, cancel: Cancel, why: string, i: nat)
    requires Settles(cancel) && (forall j | 0 <= j < |ps| :: !IsDeliverable(ps[j]))
    requires i < |Expected(ps, o, cancel, why)| && DeliverableBody(Expected(ps, o, cancel, why)[i])
    ensures Expected(ps, o, cancel, why)[i] == Body(Message, MessageOf(BackstopText(ps, o), Deliverable))
  {
    WireLayout(ps, o, cancel, why);
  }

  /** How the units that reach the wire lie on it: after the opening statuses, one body each, in order, before the ending. */
  lemma WireLayout(ps: seq<Progress>, o: Outcome, cancel: Cancel, why: string)
    requires cancel.After? ==> cancel.units <= |ps|
    ensures var bs, n := Expected(ps, o, cancel, why), Taken(ps, cancel);
      && (cancel.BeforeSubmitted? ==> bs == [Body(Status, StatusOf(Canceled, why))])
      && (!cancel.BeforeSubmitted? ==> |bs| >= 2 && bs[0] == Body(Status, StatusOf(Submitted, "")))
      && (!Early(cancel) ==>
            && |bs| == 2 + n + |if Settles(cancel) then Backstop(ps, o) else []| + 1
            && bs[1] == Body(Status, StatusOf(Working, ""))
            && forall i | 0 <= i < n :: bs[2 + i] == OnWire(ps, i))
      && bs[|bs| - 1] == Body(Status, if cancel.Never? then StatusOf(o.state, o.reason) else StatusOf(Canceled, why))
      && (Settles(cancel) && Backstop(ps, o) != [] ==> bs[2 + n] == Backstop(ps, o)[0])
  {
    if cancel.After? {
      var n := cancel.units;
      forall i | 0 <= i < n ensures BodyOf(Funnel(ps[..n], i)) == OnWire(ps, i) {
        assert ps[..n][..i] == ps[..i];
      }
    }
  }

  /** Some earlier unit was marked as the answer. */
  ghost predicate AnsweredBefore(ps: seq<Progress>, i: nat)
    requires i <= |ps|
  {
    exists j :: 0 <= j < i && ps[j].Says? && ps[j].tier == Deliverable
  }

  /** One unit on the wire: a message keeps its text and its tier, unless an answer was marked before it. */
  ghost function OnWire(ps: seq<Progress>, i: nat): Body
    requires i < |ps|
  {
    match ps[i]
    case Says(text, tier) =>
      Body(Message, MessageOf(text, if tier == Deliverable && AnsweredBefore(ps, i) then Thinking else tier))
    case Refers(ref) => Body(Artifact, ArtifactOf(ref))
    case Reports(kind) => Body(kind, Opaque)
    case Unknown => Body(Message, MessageOf("", Untiered))
  }
}
