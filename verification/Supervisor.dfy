/** W3C trace contexts as the supervisor picks them. How a traceparent is parsed is a parameter. */
module TraceContext {
  import opened Basics

  datatype Span = Span(trace: string, id: string)

  /** An empty string is a missing entry. */
  datatype Carrier = Carrier(traceparent: string, tracestate: string)

  const NO_CARRIER: Carrier := Carrier("", "")

  type Parser = Carrier -> Option<Span>

  /** The lifetime a context is rooted in. */
  datatype Root = Background | Process | Request(id: nat)

  /** A context with the valid span context it carries, if any. */
  datatype Context = Context(root: Root, span: Option<Span>)

  /** The process-start span: never set, or started by a tracer that may be the no-op one. */
  datatype BootSpan = Unset | Started(span: Option<Span>)

  /** What reading the credential directory gives. */
  datatype Disk = Missing | Unreadable | Credential(carrier: Carrier)

  /** The valid remote parent in a carrier; without a traceparent there is none. */
  function Parse(parse: Parser, c: Carrier): Option<Span> {
    if c.traceparent == "" then None else parse(c)
  }

  function Extract(parse: Parser, base: Context, c: Carrier): Context {
    var parent := Parse(parse, c);
    if parent.Some? then base.(span := parent) else base
  }

  function GraftCarrier(parse: Parser, base: Context, c: Carrier): (Context, bool) {
    if c == NO_CARRIER then (base, false)
    else
      var out := Extract(parse, base, c);
      if out.span.Some? then (out, true) else (base, false)
  }

  function CredentialCarrier(d: Disk): Carrier {
    if d.Credential? then d.carrier else NO_CARRIER
  }

  /** The context handle_task runs on. */
  function RunTraceContext(
    parse: Parser, base: Context, request: Carrier, disk: Disk, cached: Option<Context>, boot: BootSpan
  ): Context {
    var (onRequest, ok) := GraftCarrier(parse, base, request);
    if ok then onRequest
    else
      var (onCredential, ok2) := GraftCarrier(parse, base, CredentialCarrier(disk));
      if ok2 then onCredential
      else if cached.Some? && cached.value.span.Some? then base.(span := cached.value.span)
      else if boot.Started? then base.(span := boot.span)
      else base
  }

  /** The context the engine submits the task on. */
  function SubmitTraceContext(parse: Parser, fallback: Option<Span>, disk: Disk, cached: Option<Context>): Context {
    var base := Context(Background, None);
    var (onCredential, ok) := GraftCarrier(parse, base, CredentialCarrier(disk));
    if ok then onCredential
    else if cached.Some? && cached.value.span.Some? then base.(span := cached.value.span)
    else if fallback.Some? then base.(span := fallback)
    else base
  }

  // ---------- the chains, declaratively ----------

  /** The first source that has a valid span. */
  function Or(a: Option<Span>, b: Option<Span>): Option<Span> { if a.Some? then a else b }

  function OnDisk(parse: Parser, d: Disk): Option<Span> { Parse(parse, CredentialCarrier(d)) }

  function SpanOf(cached: Option<Context>): Option<Span> { if cached.Some? then cached.value.span else None }

  function BootSpanOf(boot: BootSpan): Option<Span> { if boot.Started? then boot.span else None }

  ghost predicate SameTrace(a: Context, b: Context) {
    a.span.Some? && b.span.Some? && a.span.value.trace == b.span.value.trace
  }

  /** Order of precedence on a base that carries no span, as every incoming request's does. */
  lemma ChainsInOrder(
    parse: Parser, root: Root, request: Carrier, disk: Disk, cached: Option<Context>, boot: BootSpan
  )
    ensures RunTraceContext(parse, Context(root, None), request, disk, cached, boot)
         == Context(root, Or(Parse(parse, request), Or(OnDisk(parse, disk), Or(SpanOf(cached), BootSpanOf(boot)))))
    ensures SubmitTraceContext(parse, Parse(parse, request), disk, cached)
         == Context(Background, Or(OnDisk(parse, disk), Or(SpanOf(cached), Parse(parse, request))))
  {
  }

  /**
   A graft onto a base is reported exactly when the carrier is present and either parses or the base
   already carries a span. So an unparsable carrier is reported as grafted if and only if the base
   had a span, and then nothing was taken from the carrier.
   */
  lemma GraftReportedIff(parse: Parser, base: Context, c: Carrier)
    ensures var (out, ok) := GraftCarrier(parse, base, c);
      && (ok <==> c != NO_CARRIER && (Parse(parse, c).Some? || base.span.Some?))
      && out.root == base.root
      && (out == base || (Parse(parse, c).Some? && out.span == Parse(parse, c)))
    ensures Parse(parse, c).None? ==>
      (GraftCarrier(parse, base, c) == (base, false) <==> c == NO_CARRIER || base.span.None?)
  {
  }

  /** With one reading of disk and handshake, handle_task and the submit share a trace exactly in these cases. */
  lemma LegsShareTraceIff(
    parse: Parser, root: Root, request: Carrier, disk: Disk, cached: Option<Context>, boot: BootSpan
  )
    ensures var r, d, c := Parse(parse, request), OnDisk(parse, disk), SpanOf(cached);
      SameTrace(RunTraceContext(parse, Context(root, None), request, disk, cached, boot),
                SubmitTraceContext(parse, r, disk, cached))
      <==>
      if r.None? then d.Some? || c.Some?
      else if d.Some? then d.value.trace == r.value.trace
      else c.Some? ==> c.value.trace == r.value.trace
  {
    ChainsInOrder(parse, root, request, disk, cached, boot);
  }

  /** The handshake-cached context reaches a submit exactly when the credential on disk has no valid carrier. */
  lemma CachedContextIrrelevantIff(parse: Parser, fallback: Option<Span>, disk: Disk, cached: Option<Context>)
    ensures SubmitTraceContext(parse, fallback, disk, cached) == SubmitTraceContext(parse, fallback, disk, None)
       <==> OnDisk(parse, disk).Some? || SpanOf(cached).None? || SpanOf(cached) == fallback
  {
  }
}

/**
 The in-pod supervisor: concurrent POST handlers, the credential poller and the disk it reads, as one
 machine whose steps interleave freely. A handler reads the disk and the cached context separately.
 */
module Supervisor {
  import opened Basics
  import opened TraceContext

  datatype Poller = Waiting | Fetched(carrier: Carrier) | Landed

  /** What the once-only construction gave. */
  datatype Outcome = Built(engine: nat) | Broken(error: string)

  datatype Pc =
    | Arrived
    | Looking(seen: Disk)
    | Opened
    | Claimed
    | Ready
    | Decoded
    | Relooking(seen: Disk)
    | Streaming
    | Leaving(status: nat)
    | Gone(status: nat)

  datatype Handler = Handler(
    pc: Pc, request: Carrier, handle: Option<Context>, submit: Option<Context>, got: Option<Outcome>)

  /** What the handlers and the poller share. */
  datatype Pod = Pod(
    disk: Disk, poller: Poller, cached: Option<Context>, boot: BootSpan, busy: bool, once: Option<Outcome>)

  datatype State = State(pod: Pod, handlers: map<nat, Handler>)

  datatype Move =
    | Look
    | Open
    | Claim
    | Runtime(outcome: Outcome)
    | Decode(ok: bool)
    | Relook
    | Submit(ok: bool)
    | StreamEnd(status: nat)
    | Release

  datatype Event =
    | DiskChange(disk: Disk)
    | PollRead
    | PollPublish
    | Arrive(h: nat, request: Carrier)
    | Handle(h: nat, move: Move)

  function Initial(boot: BootSpan): State {
    State(Pod(Missing, Waiting, None, boot, false, None), map[])
  }

  /** One handler's next move; a move it is not ready for changes nothing. */
  function Advance(parse: Parser, p: Pod, h: nat, me: Handler, m: Move): (Pod, Handler) {
    match m
    case Look => (p, if me.pc.Arrived? then me.(pc := Looking(p.disk)) else me)
    case Open =>
      if !me.pc.Looking? then (p, me)
      else
        var base := Context(Request(h), None);
        (p, me.(pc := Opened, handle := Some(RunTraceContext(parse, base, me.request, me.pc.seen, p.cached, p.boot))))
    case Claim =>
      if !me.pc.Opened? then (p, me)
      else if p.busy then (p, me.(pc := Gone(409)))
      else (p.(busy := true), me.(pc := Claimed))
    case Runtime(outcome) =>
      if !me.pc.Claimed? then (p, me)
      else
        var once := if p.once.Some? then p.once.value else outcome;
        (p.(once := Some(once)), me.(pc := if once.Built? then Ready else Leaving(500), got := Some(once)))
    case Decode(ok) => (p, if me.pc.Ready? then me.(pc := if ok then Decoded else Leaving(400)) else me)
    case Relook => (p, if me.pc.Decoded? then me.(pc := Relooking(p.disk)) else me)
    case Submit(ok) =>
      if !me.pc.Relooking? then (p, me)
      else
        var fallback := Extract(parse, Context(Background, None), me.request).span;
        (p, me.(pc := if ok then Streaming else Leaving(500),
                submit := Some(SubmitTraceContext(parse, fallback, me.pc.seen, p.cached))))
    case StreamEnd(status) => (p, if me.pc.Streaming? then me.(pc := Leaving(status)) else me)
    case Release =>
      if me.pc.Leaving? then (p.(busy := false), me.(pc := Gone(me.pc.status))) else (p, me)
  }

  function Step(parse: Parser, s: State, e: Event): State {
    var p := s.pod;
    match e
    case DiskChange(d) => s.(pod := p.(disk := d))
    case PollRead =>
      if p.poller.Waiting? && p.disk.Credential? then s.(pod := p.(poller := Fetched(p.disk.carrier))) else s
    case PollPublish =>
      if !p.poller.Fetched? then s
      else s.(pod := p.(poller := Landed, cached := Some(Extract(parse, Context(Process, None), p.poller.carrier))))
    case Arrive(h, request) =>
      if h in s.handlers then s
      else s.(handlers := s.handlers[h := Handler(Arrived, request, None, None, None)])
    case Handle(h, m) =>
      if h !in s.handlers then s
      else
        var (pod, me) := Advance(parse, p, h, s.handlers[h], m);
        State(pod, s.handlers[h := me])
  }

  function StateAt(parse: Parser, boot: BootSpan, es: seq<Event>, k: nat): State
    requires k <= |es|
  {
    if k == 0 then Initial(boot) else Step(parse, StateAt(parse, boot, es, k - 1), es[k - 1])
  }

  // ---------- one task at a time ----------

  /** Between claiming and releasing the flag. */
  ghost predicate Held(pc: Pc) {
    pc.Claimed? || pc.Ready? || pc.Decoded? || pc.Relooking? || pc.Streaming? || pc.Leaving?
  }

  ghost predicate Holds(s: State, h: nat) { h in s.handlers && Held(s.handlers[h].pc) }

  ghost predicate OneHolder(s: State) {
    && (forall h, g | Holds(s, h) && Holds(s, g) :: h == g)
    && (s.pod.busy <==> exists h :: Holds(s, h))
  }

  /** A handler's outcome is the pod's; past the runtime call it has one, and an engine if it goes on. */
  ghost predicate Served(once: Option<Outcome>, me: Handler) {
    && (me.got.Some? ==> me.got == once)
    && (Held(me.pc) && !me.pc.Claimed? ==> me.got.Some?)
    && (me.submit.Some? || me.pc.Ready? || me.pc.Decoded? || me.pc.Relooking? ==> me.got.Some? && me.got.value.Built?)
  }

  ghost predicate OneEngine(s: State) {
    forall h <- s.handlers :: Served(s.pod.once, s.handlers[h])
  }

  lemma AdvanceServes(parse: Parser, p: Pod, h: nat, me: Handler, m: Move)
    requires Served(p.once, me)
    ensures var (q, you) := Advance(parse, p, h, me, m);
      Served(q.once, you) && (p.once.Some? ==> q.once == p.once)
  {
  }

  lemma OthersKeepTheirPlace(parse: Parser, s: State, e: Event, g: nat)
    requires !(e.Handle? && e.h == g) && !(e.Arrive? && e.h == g)
    ensures Holds(Step(parse, s, e), g) <==> Holds(s, g)
  {
  }

  lemma StepKeepsOneHolder(parse: Parser, s: State, e: Event)
    requires OneHolder(s)
    ensures OneHolder(Step(parse, s, e))
    ensures s.pod.busy && !Step(parse, s, e).pod.busy ==> e.Handle? && e.move.Release? && Holds(s, e.h)
  {
    var t := Step(parse, s, e);
    forall g | !(e.Handle? && e.h == g) && !(e.Arrive? && e.h == g) ensures Holds(t, g) <==> Holds(s, g) {
      OthersKeepTheirPlace(parse, s, e, g);
    }
    if e.Handle? || e.Arrive? {
      assert Holds(s, e.h) == Holds(t, e.h) ==> s.pod.busy == t.pod.busy;
    }
  }

  lemma StepKeepsOneEngine(parse: Parser, s: State, e: Event)
    requires OneEngine(s)
    ensures OneEngine(Step(parse, s, e))
    ensures s.pod.once.Some? ==> Step(parse, s, e).pod.once == s.pod.once
  {
    if e.Handle? && e.h in s.handlers {
      AdvanceServes(parse, s.pod, e.h, s.handlers[e.h], e.move);
    }
  }

  /** In every reachable state at most one handler holds the pod, and the flag is up exactly while one does. */
  lemma {:induction false} BusyIsMutualExclusion(parse: Parser, boot: BootSpan, es: seq<Event>, k: nat)
    requires k <= |es|
    ensures OneHolder(StateAt(parse, boot, es, k))
  {
    if k > 0 {
      BusyIsMutualExclusion(parse, boot, es, k - 1);
      StepKeepsOneHolder(parse, StateAt(parse, boot, es, k - 1), es[k - 1]);
    }
  }

  /** The flag comes down only by the release of the one handler that holds it. */
  lemma OnlyTheHolderClearsBusy(parse: Parser, boot: BootSpan, es: seq<Event>, k: nat, h: nat)
    requires k < |es| && Holds(StateAt(parse, boot, es, k), h) && !StateAt(parse, boot, es, k + 1).pod.busy
    ensures es[k] == Handle(h, Release)
  {
    BusyIsMutualExclusion(parse, boot, es, k);
    StepKeepsOneHolder(parse, StateAt(parse, boot, es, k), es[k]);
  }

  ghost predicate RefusedAt(s: State, h: nat) {
    h in s.handlers && s.handlers[h].pc == Gone(409) && s.handlers[h].got.None?
  }

  /** A refused handler holds the pod at no moment of the run, before or after the refusal. */
  lemma RefusedNeverHolds(parse: Parser, boot: BootSpan, es: seq<Event>, i: nat, j: nat, h: nat)
    requires i <= |es| && j <= |es| && RefusedAt(StateAt(parse, boot, es, i), h)
    ensures !Holds(StateAt(parse, boot, es, j), h)
  {
    if i < j {
      RefusedStays(parse, boot, es, i, j, h);
    } else if j < i {
      NeverClaimedBefore(parse, boot, es, j, i, h);
    }
  }

  lemma {:induction false} RefusedStays(parse: Parser, boot: BootSpan, es: seq<Event>, i: nat, j: nat, h: nat)
    requires i <= j <= |es| && RefusedAt(StateAt(parse, boot, es, i), h)
    ensures RefusedAt(StateAt(parse, boot, es, j), h)
  {
    if i < j {
      RefusedStays(parse, boot, es, i, j - 1, h);
    }
  }

  /** Past the claim and without having been refused. */
  ghost predicate Admitted(s: State, h: nat) {
    Holds(s, h) || (h in s.handlers && s.handlers[h].pc.Gone? && s.handlers[h].got.Some?)
  }

  lemma {:induction false} AdmittedStays(parse: Parser, boot: BootSpan, es: seq<Event>, i: nat, j: nat, h: nat)
    requires i <= j <= |es| && Holds(StateAt(parse, boot, es, i), h)
    ensures Admitted(StateAt(parse, boot, es, j), h)
  {
    if i < j {
      AdmittedStays(parse, boot, es, i, j - 1, h);
      EngineInvAt(parse, boot, es, j - 1);
      AdmittedStep(parse, StateAt(parse, boot, es, j - 1), es[j - 1], h);
    }
  }

  lemma AdmittedStep(parse: Parser, s: State, e: Event, h: nat)
    requires Admitted(s, h) && OneEngine(s)
    ensures Admitted(Step(parse, s, e), h)
  {
  }

  lemma NeverClaimedBefore(parse: Parser, boot: BootSpan, es: seq<Event>, j: nat, i: nat, h: nat)
    requires j <= i <= |es| && RefusedAt(StateAt(parse, boot, es, i), h)
    ensures !Holds(StateAt(parse, boot, es, j), h)
  {
    if Holds(StateAt(parse, boot, es, j), h) {
      AdmittedStays(parse, boot, es, j, i, h);
    }
  }

  // ---------- the once-only engine ----------

  lemma {:induction false} EngineInvAt(parse: Parser, boot: BootSpan, es: seq<Event>, k: nat)
    requires k <= |es|
    ensures OneEngine(StateAt(parse, boot, es, k))
  {
    if k > 0 {
      EngineInvAt(parse, boot, es, k - 1);
      StepKeepsOneEngine(parse, StateAt(parse, boot, es, k - 1), es[k - 1]);
    }
  }

  lemma {:induction false} OutcomeIsForever(parse: Parser, boot: BootSpan, es: seq<Event>, i: nat, j: nat)
    requires i <= j <= |es| && StateAt(parse, boot, es, i).pod.once.Some?
    ensures StateAt(parse, boot, es, j).pod.once == StateAt(parse, boot, es, i).pod.once
  {
    if i < j {
      OutcomeIsForever(parse, boot, es, i, j - 1);
    }
  }

  /** Any two handlers, at any two moments, were given the same engine or the same error. */
  lemma OneConstructionServesAll(
    parse: Parser, boot: BootSpan, es: seq<Event>, i: nat, g: nat, j: nat, h: nat
  )
    requires i <= |es| && g in StateAt(parse, boot, es, i).handlers
    requires j <= |es| && h in StateAt(parse, boot, es, j).handlers
    requires StateAt(parse, boot, es, i).handlers[g].got.Some? && StateAt(parse, boot, es, j).handlers[h].got.Some?
    ensures StateAt(parse, boot, es, i).handlers[g].got == StateAt(parse, boot, es, j).handlers[h].got
  {
    EngineInvAt(parse, boot, es, i);
    EngineInvAt(parse, boot, es, j);
    if i <= j { OutcomeIsForever(parse, boot, es, i, j); } else { OutcomeIsForever(parse, boot, es, j, i); }
  }

  /** A failed construction is never retried: from then on nobody submits, in any run. */
  lemma BrokenRuntimeIsPermanent(parse: Parser, boot: BootSpan, es: seq<Event>, i: nat, j: nat, h: nat)
    requires i <= j <= |es| && h in StateAt(parse, boot, es, j).handlers
    requires StateAt(parse, boot, es, i).pod.once.Some? && StateAt(parse, boot, es, i).pod.once.value.Broken?
    ensures StateAt(parse, boot, es, j).handlers[h].submit.None?
  {
    OutcomeIsForever(parse, boot, es, i, j);
    EngineInvAt(parse, boot, es, j);
  }

  // ---------- which trace a task runs on ----------

  /** The handler is where this read of the credential directory takes effect. */
  predicate ReadyFor(pc: Pc, m: Move) { (m.Look? && pc.Arrived?) || (m.Relook? && pc.Decoded?) }

  /** Handler h, ready for it, reads the credential directory at step r and sees this. */
  ghost predicate Reads(parse: Parser, boot: BootSpan, es: seq<Event>, r: nat, h: nat, m: Move, seen: Disk) {
    && r < |es| && es[r] == Handle(h, m)
    && var s := StateAt(parse, boot, es, r);
       h in s.handlers && ReadyFor(s.handlers[h].pc, m) && s.pod.disk == seen
  }

  ghost predicate HandleFrom(
    parse: Parser, boot: BootSpan, es: seq<Event>, me: Handler, h: nat, r: nat, m: nat, seen: Disk
  ) {
    && r < m < |es| && Reads(parse, boot, es, r, h, Look, seen)
    && me.handle == Some(Context(Request(h),
         Or(Parse(parse, me.request), Or(OnDisk(parse, seen), Or(SpanOf(StateAt(parse, boot, es, m).pod.cached), BootSpanOf(boot))))))
  }

  ghost predicate SubmitFrom(
    parse: Parser, boot: BootSpan, es: seq<Event>, me: Handler, h: nat, r: nat, m: nat, seen: Disk
  ) {
    && r < m < |es| && Reads(parse, boot, es, r, h, Relook, seen)
    && me.submit == Some(Context(Background,
         Or(OnDisk(parse, seen), Or(SpanOf(StateAt(parse, boot, es, m).pod.cached), Parse(parse, me.request)))))
  }

  lemma {:induction false} BootIsFixed(parse: Parser, boot: BootSpan, es: seq<Event>, k: nat)
    requires k <= |es|
    ensures StateAt(parse, boot, es, k).pod.boot == boot
  {
    if k > 0 {
      BootIsFixed(parse, boot, es, k - 1);
    }
  }

  /** What one step can do to one handler's place, and to the contexts it has chosen. */
  lemma HandlerStep(parse: Parser, s: State, e: Event, h: nat)
    requires h in Step(parse, s, e).handlers
    ensures var me := Step(parse, s, e).handlers[h];
      if h !in s.handlers then me.pc.Arrived? && me.handle.None? && me.submit.None?
      else
        var was := s.handlers[h];
        && me.request == was.request
        && (me.pc.Looking? ==> me.pc == was.pc || (e == Handle(h, Look) && was.pc.Arrived? && me.pc.seen == s.pod.disk))
        && (me.pc.Relooking? ==> me.pc == was.pc || (e == Handle(h, Relook) && was.pc.Decoded? && me.pc.seen == s.pod.disk))
        && (me.handle == was.handle || (was.pc.Looking? && me.handle == Some(OpenContext(parse, s, h))))
        && (me.submit == was.submit || (was.pc.Relooking? && me.submit == Some(SubmitContext(parse, s, h))))
  {
  }

  function OpenContext(parse: Parser, s: State, h: nat): Context
    requires h in s.handlers && s.handlers[h].pc.Looking?
  {
    var me := s.handlers[h];
    Context(Request(h),
            Or(Parse(parse, me.request), Or(OnDisk(parse, me.pc.seen), Or(SpanOf(s.pod.cached), BootSpanOf(s.pod.boot)))))
  }

  function SubmitContext(parse: Parser, s: State, h: nat): Context
    requires h in s.handlers && s.handlers[h].pc.Relooking?
  {
    var me := s.handlers[h];
    Context(Background, Or(OnDisk(parse, me.pc.seen), Or(SpanOf(s.pod.cached), Parse(parse, me.request))))
  }

  /** A directory listing a handler is about to act on was on disk when it looked. */
  lemma {:induction false} SeenWasOnDisk(parse: Parser, boot: BootSpan, es: seq<Event>, k: nat, h: nat)
    requires k <= |es| && h in StateAt(parse, boot, es, k).handlers
    ensures var pc := StateAt(parse, boot, es, k).handlers[h].pc;
      && (pc.Looking? ==> exists r: nat :: r < k && Reads(parse, boot, es, r, h, Look, pc.seen))
      && (pc.Relooking? ==> exists r: nat :: r < k && Reads(parse, boot, es, r, h, Relook, pc.seen))
  {
    var before, pc := StateAt(parse, boot, es, k - 1), StateAt(parse, boot, es, k).handlers[h].pc;
    HandlerStep(parse, before, es[k - 1], h);
    if h in before.handlers && before.handlers[h].pc == pc {
      SeenWasOnDisk(parse, boot, es, k - 1, h);
    } else if pc.Looking? {
      assert Reads(parse, boot, es, k - 1, h, Look, pc.seen);
    } else if pc.Relooking? {
      assert Reads(parse, boot, es, k - 1, h, Relook, pc.seen);
    }
  }

  /** Where every context of every run came from: one read of the disk, one of the handshake, the request. */
  lemma {:induction false} HandleContextHistory(parse: Parser, boot: BootSpan, es: seq<Event>, k: nat, h: nat)
    requires k <= |es| && h in StateAt(parse, boot, es, k).handlers
    requires StateAt(parse, boot, es, k).handlers[h].handle.Some?
    ensures exists r: nat, m: nat, seen ::
      m < k && HandleFrom(parse, boot, es, StateAt(parse, boot, es, k).handlers[h], h, r, m, seen)
  {
    var before, me := StateAt(parse, boot, es, k - 1), StateAt(parse, boot, es, k).handlers[h];
    HandlerStep(parse, before, es[k - 1], h);
    if h in before.handlers && before.handlers[h].handle == me.handle {
      HandleContextHistory(parse, boot, es, k - 1, h);
      var r: nat, m: nat, seen :| m < k - 1 && HandleFrom(parse, boot, es, before.handlers[h], h, r, m, seen);
      assert HandleFrom(parse, boot, es, me, h, r, m, seen);
    } else {
      var seen := before.handlers[h].pc.seen;
      SeenWasOnDisk(parse, boot, es, k - 1, h);
      BootIsFixed(parse, boot, es, k - 1);
      var r: nat :| r < k - 1 && Reads(parse, boot, es, r, h, Look, seen);
      assert HandleFrom(parse, boot, es, me, h, r, k - 1, seen);
    }
  }

  lemma {:induction false} SubmitContextHistory(parse: Parser, boot: BootSpan, es: seq<Event>, k: nat, h: nat)
    requires k <= |es| && h in StateAt(parse, boot, es, k).handlers
    requires StateAt(parse, boot, es, k).handlers[h].submit.Some?
    ensures exists r: nat, m: nat, seen ::
      m < k && SubmitFrom(parse, boot, es, StateAt(parse, boot, es, k).handlers[h], h, r, m, seen)
  {
    var before, me := StateAt(parse, boot, es, k - 1), StateAt(parse, boot, es, k).handlers[h];
    HandlerStep(parse, before, es[k - 1], h);
    if h in before.handlers && before.handlers[h].submit == me.submit {
      SubmitContextHistory(parse, boot, es, k - 1, h);
      var r: nat, m: nat, seen :| m < k - 1 && SubmitFrom(parse, boot, es, before.handlers[h], h, r, m, seen);
      assert SubmitFrom(parse, boot, es, me, h, r, m, seen);
    } else {
      var seen := before.handlers[h].pc.seen;
      SeenWasOnDisk(parse, boot, es, k - 1, h);
      var r: nat :| r < k - 1 && Reads(parse, boot, es, r, h, Relook, seen);
      assert SubmitFrom(parse, boot, es, me, h, r, k - 1, seen);
    }
  }

  /** No bleed: a valid carrier on disk when the task looked is the one it is submitted on, whatever was cached. */
  lemma SubmitFollowsTheDisk(parse: Parser, boot: BootSpan, es: seq<Event>, k: nat, h: nat)
    requires k <= |es| && h in StateAt(parse, boot, es, k).handlers
    requires StateAt(parse, boot, es, k).handlers[h].submit.Some?
    ensures var submit := StateAt(parse, boot, es, k).handlers[h].submit.value;
      && submit.root == Background
      && exists r: nat, seen ::
           && r < k && Reads(parse, boot, es, r, h, Relook, seen)
           && (OnDisk(parse, seen).Some? ==> submit.span == OnDisk(parse, seen))
  {
    SubmitContextHistory(parse, boot, es, k, h);
  }

  ghost predicate CachedFrom(parse: Parser, cached: Option<Context>, disk: Disk) {
    disk.Credential? && SpanOf(cached) == OnDisk(parse, disk)
  }

  /** The cached context is the one extracted from a credential that was once on disk. */
  lemma {:induction false} CachedWasOnDisk(parse: Parser, boot: BootSpan, es: seq<Event>, k: nat)
    requires k <= |es|
    ensures var s := StateAt(parse, boot, es, k);
      && (s.pod.poller.Fetched? ==> exists i: nat :: i < k && StateAt(parse, boot, es, i).pod.disk == Credential(s.pod.poller.carrier))
      && (s.pod.cached.Some? ==> exists i: nat :: i < k && CachedFrom(parse, s.pod.cached, StateAt(parse, boot, es, i).pod.disk))
  {
    if k > 0 {
      CachedWasOnDisk(parse, boot, es, k - 1);
      var before := StateAt(parse, boot, es, k - 1);
      assert before.pod.disk.Credential? ==> before.pod.disk == Credential(before.pod.disk.carrier);
    }
  }

  /**
   The sandbox leg: while the handler lives the credential on disk has this valid carrier, and any
   header agrees with it. Then handle_task and the run share the credential's trace.
   */
  lemma SandboxLegSharesTrace(parse: Parser, boot: BootSpan, es: seq<Event>, k: nat, h: nat, run: Span)
    requires k <= |es| && h in StateAt(parse, boot, es, k).handlers
    requires StateAt(parse, boot, es, k).handlers[h].handle.Some? && StateAt(parse, boot, es, k).handlers[h].submit.Some?
    requires forall i | 0 <= i <= k && h in StateAt(parse, boot, es, i).handlers ::
      OnDisk(parse, StateAt(parse, boot, es, i).pod.disk) == Some(run)
    requires var header := Parse(parse, StateAt(parse, boot, es, k).handlers[h].request);
      header.Some? ==> header.value.trace == run.trace
    ensures var me := StateAt(parse, boot, es, k).handlers[h];
      SameTrace(me.handle.value, me.submit.value) && me.submit.value == Context(Background, Some(run))
  {
    HandleContextHistory(parse, boot, es, k, h);
    SubmitContextHistory(parse, boot, es, k, h);
  }

  /** The mesh leg: no credential ever landed and the header is valid. Both legs are the header's span. */
  lemma MeshLegSharesTrace(parse: Parser, boot: BootSpan, es: seq<Event>, k: nat, h: nat, header: Span)
    requires k <= |es| && h in StateAt(parse, boot, es, k).handlers
    requires StateAt(parse, boot, es, k).handlers[h].handle.Some? && StateAt(parse, boot, es, k).handlers[h].submit.Some?
    requires forall i | 0 <= i <= k :: !StateAt(parse, boot, es, i).pod.disk.Credential?
    requires Parse(parse, StateAt(parse, boot, es, k).handlers[h].request) == Some(header)
    ensures var me := StateAt(parse, boot, es, k).handlers[h];
      me.handle == Some(Context(Request(h), Some(header))) && me.submit == Some(Context(Background, Some(header)))
  {
    HandleContextHistory(parse, boot, es, k, h);
    SubmitContextHistory(parse, boot, es, k, h);
    var me := StateAt(parse, boot, es, k).handlers[h];
    var r: nat, m: nat, seen :| m < k && SubmitFrom(parse, boot, es, me, h, r, m, seen);
    CachedWasOnDisk(parse, boot, es, m);
  }

  // ---------- a run in which the first trace does bleed ----------

  /** The first credential is traced and lands; the next one is untraced; a task without headers arrives. */
  function WarmUp(first: Carrier, h: nat): seq<Event> {
    [DiskChange(Credential(first)), PollRead, PollPublish, DiskChange(Credential(NO_CARRIER)), Arrive(h, NO_CARRIER)]
  }

  function Begin(h: nat): seq<Event> {
    [Handle(h, Look), Handle(h, Open), Handle(h, Claim)]
  }

  function Serve(h: nat): seq<Event> {
    [Handle(h, Runtime(Built(0))), Handle(h, Decode(true)), Handle(h, Relook), Handle(h, Submit(true))]
  }

  ghost function WarmPod(parse: Parser, boot: BootSpan, first: Carrier): Pod {
    Pod(Credential(NO_CARRIER), Landed, Some(Extract(parse, Context(Process, None), first)), boot, false, None)
  }

  lemma AfterWarmUp(parse: Parser, boot: BootSpan, es: seq<Event>, first: Carrier, h: nat)
    requires |es| >= 5 && es[..5] == WarmUp(first, h)
    ensures StateAt(parse, boot, es, 5)
         == State(WarmPod(parse, boot, first), map[h := Handler(Arrived, NO_CARRIER, None, None, None)])
  {
    assert es[0] == es[..5][0] && es[1] == es[..5][1] && es[2] == es[..5][2] && es[3] == es[..5][3] && es[4] == es[..5][4];
    assert StateAt(parse, boot, es, 0) == Initial(boot);
    assert StateAt(parse, boot, es, 1).pod.disk == Credential(first);
    assert StateAt(parse, boot, es, 2).pod.poller == Fetched(first);
    assert StateAt(parse, boot, es, 4) == State(WarmPod(parse, boot, first), map[]);
  }

  lemma AfterBegin(parse: Parser, boot: BootSpan, es: seq<Event>, n: nat, pod: Pod, h: nat)
    requires n + 3 <= |es| && es[n..n + 3] == Begin(h) && !pod.busy
    requires StateAt(parse, boot, es, n) == State(pod, map[h := Handler(Arrived, NO_CARRIER, None, None, None)])
    ensures StateAt(parse, boot, es, n + 3).pod == pod.(busy := true)
    ensures h in StateAt(parse, boot, es, n + 3).handlers
    ensures var me := StateAt(parse, boot, es, n + 3).handlers[h]; me.pc == Claimed && me.request == NO_CARRIER
  {
    assert es[n] == es[n..n + 3][0] && es[n + 1] == es[n..n + 3][1] && es[n + 2] == es[n..n + 3][2];
    assert StateAt(parse, boot, es, n + 1).handlers[h].pc.Looking?;
    assert StateAt(parse, boot, es, n + 2).handlers[h].pc.Opened?;
  }

  lemma AfterServe(parse: Parser, boot: BootSpan, es: seq<Event>, n: nat, h: nat)
    requires n + 4 <= |es| && es[n..n + 4] == Serve(h)
    requires var s := StateAt(parse, boot, es, n);
      && h in s.handlers && s.handlers[h].pc == Claimed && s.handlers[h].request == NO_CARRIER
      && s.pod.disk == Credential(NO_CARRIER) && s.pod.once == None
    ensures var s := StateAt(parse, boot, es, n + 4);
      && s.pod.disk == Credential(NO_CARRIER) && h in s.handlers
      && s.handlers[h].submit == Some(Context(Background, SpanOf(StateAt(parse, boot, es, n).pod.cached)))
  {
    var f := es[n..n + 4];
    assert es[n] == f[0] && es[n + 1] == f[1] && es[n + 2] == f[2] && es[n + 3] == f[3];
    assert StateAt(parse, boot, es, n + 1).handlers[h].pc.Ready?;
    assert StateAt(parse, boot, es, n + 2).handlers[h].pc.Decoded?;
    assert StateAt(parse, boot, es, n + 3).handlers[h].pc == Relooking(Credential(NO_CARRIER));
  }

  /** An untraced run on a warm pod is still submitted on the first run's trace: only traced runs are kept apart. */
  lemma UntracedRunInheritsFirstTrace(parse: Parser, boot: BootSpan, first: Carrier, h: nat)
    requires Parse(parse, first).Some?
    ensures var es := WarmUp(first, h) + Begin(h) + Serve(h);
      var s := StateAt(parse, boot, es, 12);
      && s.pod.disk == Credential(NO_CARRIER) && h in s.handlers
      && s.handlers[h].submit == Some(Context(Background, Parse(parse, first)))
  {
    var es := WarmUp(first, h) + Begin(h) + Serve(h);
    assert es[..5] == WarmUp(first, h) && es[5..8] == Begin(h) && es[8..12] == Serve(h);
    AfterWarmUp(parse, boot, es, first, h);
    AfterBegin(parse, boot, es, 5, WarmPod(parse, boot, first), h);
    AfterServe(parse, boot, es, 8, h);
  }

  // ---------- what each handler is answered ----------

  /** A claim is answered 409 exactly on a busy pod, which keeps its holder; on a free pod it is granted and the pod is busy. */
  lemma ClaimExactly(parse: Parser, s: State, h: nat)
    requires h in s.handlers && s.handlers[h].pc.Opened?
    ensures var t := Step(parse, s, Handle(h, Claim));
      && h in t.handlers && t.pod.(busy := s.pod.busy) == s.pod && t.pod.busy
      && t.handlers[h].pc == (if s.pod.busy then Gone(409) else Claimed)
      && forall g <- s.handlers | g != h :: g in t.handlers && t.handlers[g] == s.handlers[g]
  {
  }

  /** The other answers: 500 without an engine or on a failed submit, 400 on an undecodable task, else what the stream ended with. */
  lemma AnswersExactly(parse: Parser, s: State, h: nat, outcome: Outcome, ok: bool, status: nat)
    requires h in s.handlers
    ensures var pc := s.handlers[h].pc;
      && (pc.Claimed? ==>
            var t, got := Step(parse, s, Handle(h, Runtime(outcome))), if s.pod.once.Some? then s.pod.once.value else outcome;
            t.pod.once == Some(got) && t.handlers[h].got == Some(got) && t.handlers[h].pc == if got.Built? then Ready else Leaving(500))
      && (pc.Ready? ==> Step(parse, s, Handle(h, Decode(ok))).handlers[h].pc == if ok then Decoded else Leaving(400))
      && (pc.Relooking? ==> Step(parse, s, Handle(h, Submit(ok))).handlers[h].pc == if ok then Streaming else Leaving(500))
      && (pc.Streaming? ==> Step(parse, s, Handle(h, StreamEnd(status))).handlers[h].pc == Leaving(status))
      && (pc.Leaving? ==>
            var t := Step(parse, s, Handle(h, Release)); t.handlers[h].pc == Gone(pc.status) && !t.pod.busy)
  {
  }

  /** The poller takes the first credential it finds, once, and publishes what it extracts from it. */
  lemma PollerExactly(parse: Parser, s: State, disk: Disk, h: nat, request: Carrier)
    ensures Step(parse, s, DiskChange(disk)) == s.(pod := s.pod.(disk := disk))
    ensures s.pod.poller.Waiting? && s.pod.disk.Credential? ==>
      Step(parse, s, PollRead) == s.(pod := s.pod.(poller := Fetched(s.pod.disk.carrier)))
    ensures !(s.pod.poller.Waiting? && s.pod.disk.Credential?) ==> Step(parse, s, PollRead) == s
    ensures s.pod.poller.Fetched? ==>
      var t := Step(parse, s, PollPublish);
      && t.pod.poller.Landed? && t.handlers == s.handlers && t.pod.disk == s.pod.disk
      && t.pod.cached == Some(Context(Process, Parse(parse, s.pod.poller.carrier)))
    ensures !s.pod.poller.Fetched? ==> Step(parse, s, PollPublish) == s
    ensures h !in s.handlers ==>
      Step(parse, s, Arrive(h, request)) == s.(handlers := s.handlers[h := Handler(Arrived, request, None, None, None)])
  {
  }
}
