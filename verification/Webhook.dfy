/**
 The webhook receiver: concurrent deliveries behind an admission semaphore and a verify gate, while
 Projects and Secrets are edited underneath them. How a provider checks a delivery is a parameter.
 */
module Webhook {
  import opened Basics

  type Key = (string, string) // namespace and name

  datatype SecretRef = SecretRef(name: string, key: string)

  datatype Spec = Spec(provider: string, secret: Option<SecretRef>)

  /** A Project: what its owner configures, and the annotation a delivery may bump. */
  datatype Project = Project(spec: Spec, trigger: Option<nat>)

  datatype Request = Request(post: bool, namespace: string, project: string, payload: string)

  /** Does this provider accept this payload under this secret? Unknown providers accept nothing. */
  type Check = (string, string, string) -> bool

  datatype Outcome = Accepted | Rejected | Errored

  datatype Pc =
    | Arrived
    | Admitted
    | Routed
    | Found(spec: Spec)
    | BodyRead(spec: Spec)
    | SecretRead(spec: Spec, secret: string)
    | Verified
    | Returning(outcome: Outcome, holds: bool)
    | Returned(outcome: Outcome)
    | Counted(outcome: Outcome)

  datatype Delivery = Delivery(request: Request, pc: Pc)

  datatype Move =
    | Admit
    | Route
    | Lookup
    | ReadBody(ok: bool)
    | ReadSecret
    | Verify
    | Patch(ok: bool, stamp: nat)
    | Return
    | Count

  datatype Event =
    | Configure(key: Key, spec: Spec)
    | Remove(key: Key)
    | PutSecret(key: Key, data: map<string, string>)
    | Arrive(h: nat, request: Request)
    | Serve(h: nat, move: Move)

  datatype Store = Store(projects: map<Key, Project>, secrets: map<Key, map<string, string>>)

  datatype State = State(store: Store, tokens: nat, deliveries: map<nat, Delivery>, counted: seq<nat>)

  const CAPACITY: nat := 64
  const DEFAULT_KEY: string := "webhookSecret"

  function KeyOf(r: Request): Key { (r.namespace, r.project) }

  /** An unset key of a secret reads as the empty string. */
  function SecretValue(data: map<string, string>, key: string): string {
    var name := if key == "" then DEFAULT_KEY else key;
    if name in data then data[name] else ""
  }

  predicate Configured(spec: Spec) { spec.secret.Some? && spec.secret.value.name != "" }

  /** One delivery's next step; the store changes only in Patch, the tokens only in Admit and Return. */
  function Advance(check: Check, st: Store, tokens: nat, d: Delivery, m: Move): (Store, nat, Pc) {
    var pc, key := d.pc, KeyOf(d.request);
    match m
    case Admit =>
      if !pc.Arrived? then (st, tokens, pc)
      else if tokens < CAPACITY then (st, tokens + 1, Admitted) else (st, tokens, Returning(Errored, false))
    case Route =>
      if !pc.Admitted? then (st, tokens, pc)
      else if d.request.post && d.request.project != "" && d.request.namespace != "" then (st, tokens, Routed)
      else (st, tokens, Returning(Errored, true))
    case Lookup =>
      if !pc.Routed? then (st, tokens, pc)
      else if key in st.projects && Configured(st.projects[key].spec) then (st, tokens, Found(st.projects[key].spec))
      else (st, tokens, Returning(Rejected, true))
    case ReadBody(ok) =>
      if !pc.Found? then (st, tokens, pc)
      else if ok then (st, tokens, BodyRead(pc.spec)) else (st, tokens, Returning(Errored, true))
    case ReadSecret =>
      if !pc.BodyRead? || pc.spec.secret.None? then (st, tokens, pc)
      else
        var ref := pc.spec.secret.value;
        var at := (d.request.namespace, ref.name);
        if at in st.secrets then (st, tokens, SecretRead(pc.spec, SecretValue(st.secrets[at], ref.key)))
        else (st, tokens, Returning(Rejected, true))
    case Verify =>
      if !pc.SecretRead? then (st, tokens, pc)
      else if check(pc.spec.provider, d.request.payload, pc.secret) then (st, tokens, Verified)
      else (st, tokens, Returning(Rejected, true))
    case Patch(ok, stamp) =>
      if !pc.Verified? then (st, tokens, pc)
      else if ok && key in st.projects then
        (st.(projects := st.projects[key := st.projects[key].(trigger := Some(stamp))]), tokens, Returning(Accepted, true))
      else (st, tokens, Returning(Errored, true))
    case Return =>
      if !pc.Returning? then (st, tokens, pc)
      else if !pc.holds then (st, tokens, Returned(pc.outcome))
      else if tokens > 0 then (st, tokens - 1, Returned(pc.outcome))
      else (st, tokens, pc) // would block on an empty channel
    case Count => (st, tokens, if pc.Returned? then Counted(pc.outcome) else pc)
  }

  function Step(check: Check, s: State, e: Event): State {
    match e
    case Configure(key, spec) =>
      var trigger := if key in s.store.projects then s.store.projects[key].trigger else None;
      s.(store := s.store.(projects := s.store.projects[key := Project(spec, trigger)]))
    case Remove(key) => s.(store := s.store.(projects := s.store.projects - {key}))
    case PutSecret(key, data) => s.(store := s.store.(secrets := s.store.secrets[key := data]))
    case Arrive(h, request) =>
      if h in s.deliveries then s else s.(deliveries := s.deliveries[h := Delivery(request, Arrived)])
    case Serve(h, m) =>
      if h !in s.deliveries then s
      else
        var d := s.deliveries[h];
        var (st, tokens, pc) := Advance(check, s.store, s.tokens, d, m);
        State(st, tokens, s.deliveries[h := d.(pc := pc)],
              if pc.Counted? && !d.pc.Counted? then s.counted + [h] else s.counted)
  }

  function StateAt(check: Check, store: Store, es: seq<Event>, k: nat): State
    requires k <= |es|
  {
    if k == 0 then State(store, 0, map[], []) else Step(check, StateAt(check, store, es, k - 1), es[k - 1])
  }

  // ---------- admission ----------

  predicate HoldsToken(pc: Pc) {
    !pc.Arrived? && !pc.Returned? && !pc.Counted? && (pc.Returning? ==> pc.holds)
  }

  /** The deliveries admitted and not yet finished. */
  ghost function InFlight(s: State): set<nat> { set h | h in s.deliveries && HoldsToken(s.deliveries[h].pc) }

  ghost predicate Inv(s: State) {
    && s.tokens == |InFlight(s)| <= CAPACITY
    && (forall i, j | 0 <= i < j < |s.counted| :: s.counted[i] != s.counted[j])
    && (forall h :: h in s.counted <==> h in s.deliveries && s.deliveries[h].pc.Counted?)
  }

  lemma AdvanceTokens(check: Check, st: Store, tokens: nat, d: Delivery, m: Move)
    requires tokens <= CAPACITY && (HoldsToken(d.pc) ==> tokens > 0)
    ensures var (_, after, pc) := Advance(check, st, tokens, d, m);
      && after <= CAPACITY
      && after + (if HoldsToken(d.pc) then 1 else 0) == tokens + (if HoldsToken(pc) then 1 else 0)
      && (d.pc.Counted? ==> pc == d.pc)
  {
  }

  lemma InFlightAfter(s: State, t: State, h: nat)
    requires h in t.deliveries && t.deliveries.Keys == s.deliveries.Keys + {h}
    requires forall g <- s.deliveries | g != h :: t.deliveries[g] == s.deliveries[g]
    ensures |InFlight(t)| + (if h in InFlight(s) then 1 else 0) == |InFlight(s)| + (if h in InFlight(t) then 1 else 0)
  {
    forall g | g != h ensures g in InFlight(t) <==> g in InFlight(s) {
      assert g in t.deliveries <==> g in s.deliveries;
    }
    assert InFlight(t) - {h} == InFlight(s) - {h};
    WithoutOne(InFlight(s), h);
    WithoutOne(InFlight(t), h);
  }

  lemma WithoutOne(a: set<nat>, h: nat)
    ensures |a| == |a - {h}| + if h in a then 1 else 0
  {
    assert a == (a - {h}) + (a * {h});
  }

  lemma StepKeepsInv(check: Check, s: State, e: Event)
    requires Inv(s)
    ensures Inv(Step(check, s, e))
  {
    var t := Step(check, s, e);
    if e.Serve? && e.h in s.deliveries {
      var d := s.deliveries[e.h];
      assert HoldsToken(d.pc) ==> e.h in InFlight(s);
      AdvanceTokens(check, s.store, s.tokens, d, e.move);
      InFlightAfter(s, t, e.h);
    } else if e.Arrive? && e.h !in s.deliveries {
      InFlightAfter(s, t, e.h);
    } else {
      assert InFlight(t) == InFlight(s);
    }
  }

  /**
   In every reachable state the tokens held are exactly the admitted, unfinished deliveries, never more
   than the capacity, and every finished delivery has been counted exactly once.
   */
  lemma {:induction false} TokensAreInFlightDeliveries(check: Check, store: Store, es: seq<Event>, k: nat)
    requires k <= |es|
    ensures Inv(StateAt(check, store, es, k))
    ensures var s := StateAt(check, store, es, k); s.tokens == |InFlight(s)| <= 64
  {
    if k == 0 {
      assert InFlight(StateAt(check, store, es, 0)) == {};
    } else {
      TokensAreInFlightDeliveries(check, store, es, k - 1);
      StepKeepsInv(check, StateAt(check, store, es, k - 1), es[k - 1]);
    }
  }

  /** The release never blocks. */
  lemma ReturnNeverBlocks(check: Check, store: Store, es: seq<Event>, k: nat, h: nat)
    requires k <= |es| && h in StateAt(check, store, es, k).deliveries
    requires StateAt(check, store, es, k).deliveries[h].pc.Returning?
    ensures Step(check, StateAt(check, store, es, k), Serve(h, Return)).deliveries[h].pc.Returned?
  {
    TokensAreInFlightDeliveries(check, store, es, k);
    var s := StateAt(check, store, es, k);
    assert s.deliveries[h].pc.holds ==> h in InFlight(s);
  }

  /** A delivery is turned away as overloaded exactly when the other deliveries in flight fill the capacity. */
  lemma RefusedIffFull(check: Check, store: Store, es: seq<Event>, k: nat, h: nat)
    requires k <= |es| && h in StateAt(check, store, es, k).deliveries
    requires StateAt(check, store, es, k).deliveries[h].pc.Arrived?
    ensures var s := StateAt(check, store, es, k);
      Step(check, s, Serve(h, Admit)).deliveries[h].pc == Returning(Errored, false) <==> |InFlight(s) - {h}| == 64
  {
    TokensAreInFlightDeliveries(check, store, es, k);
    var s := StateAt(check, store, es, k);
    assert InFlight(s) - {h} == InFlight(s);
  }

  // ---------- the verify gate ----------

  ghost function Trigger(st: Store, key: Key): Option<nat> {
    if key in st.projects then st.projects[key].trigger else None
  }

  /** Delivery h looked its Project up at step l and was given this spec. */
  ghost predicate LookedUp(check: Check, store: Store, es: seq<Event>, l: nat, h: nat, spec: Spec) {
    && l < |es| && es[l] == Serve(h, Lookup) && Configured(spec)
    && var s := StateAt(check, store, es, l);
       && h in s.deliveries && s.deliveries[h].pc.Routed? && KeyOf(s.deliveries[h].request) in s.store.projects
       && s.store.projects[KeyOf(s.deliveries[h].request)].spec == spec
  }

  /** Delivery h read this secret, stored under the reference of its Project's spec, at step r. */
  ghost predicate GotSecret(check: Check, store: Store, es: seq<Event>, r: nat, h: nat, spec: Spec, secret: string) {
    && r < |es| && es[r] == Serve(h, ReadSecret) && Configured(spec)
    && var s := StateAt(check, store, es, r);
       && h in s.deliveries && s.deliveries[h].pc == BodyRead(spec)
       && var at := (s.deliveries[h].request.namespace, spec.secret.value.name);
          at in s.store.secrets && SecretValue(s.store.secrets[at], spec.secret.value.key) == secret
  }

  /** What is behind a delivery at each stage of the pipeline. */
  ghost predicate Backed(check: Check, store: Store, es: seq<Event>, k: nat, h: nat, d: Delivery) {
    match d.pc
    case Found(spec) => exists l: nat :: l < k && LookedUp(check, store, es, l, h, spec)
    case BodyRead(spec) => exists l: nat :: l < k && LookedUp(check, store, es, l, h, spec)
    case SecretRead(spec, secret) => exists l: nat, r: nat :: l < r < k && ReadFor(check, store, es, l, r, h, spec, secret)
    case Verified => CheckPassed(check, store, es, k, h, d.request)
    case _ => true
  }

  ghost predicate ReadFor(
    check: Check, store: Store, es: seq<Event>, l: nat, r: nat, h: nat, spec: Spec, secret: string
  ) {
    LookedUp(check, store, es, l, h, spec) && GotSecret(check, store, es, r, h, spec, secret)
  }

  /** At step v delivery h had its payload checked, under this spec and secret, and it was accepted. */
  ghost predicate Checked(
    check: Check, store: Store, es: seq<Event>, v: nat, h: nat, request: Request, spec: Spec, secret: string
  ) {
    && v < |es| && es[v] == Serve(h, Verify) && check(spec.provider, request.payload, secret)
    && h in StateAt(check, store, es, v).deliveries
    && StateAt(check, store, es, v).deliveries[h] == Delivery(request, SecretRead(spec, secret))
  }

  /** Earlier in this same delivery a lookup, a secret read and an accepting check, each taking effect. */
  ghost predicate CheckPassed(check: Check, store: Store, es: seq<Event>, k: nat, h: nat, request: Request) {
    exists l: nat, r: nat, v: nat, spec, secret ::
      && l < r < v < k && ReadFor(check, store, es, l, r, h, spec, secret)
      && Checked(check, store, es, v, h, request, spec, secret)
  }

  /** How a delivery can have come to each stage in one step. */
  lemma PcStep(check: Check, s: State, e: Event, h: nat)
    requires h in Step(check, s, e).deliveries
    ensures var d := Step(check, s, e).deliveries[h];
      if h !in s.deliveries then d.pc.Arrived?
      else
        var was := s.deliveries[h];
        && d.request == was.request
        && (d.pc == was.pc ||
            match d.pc
            case Found(spec) =>
              && e == Serve(h, Lookup) && was.pc.Routed? && Configured(spec)
              && KeyOf(d.request) in s.store.projects && s.store.projects[KeyOf(d.request)].spec == spec
            case BodyRead(spec) => was.pc == Found(spec)
            case SecretRead(spec, secret) =>
              && e == Serve(h, ReadSecret) && was.pc == BodyRead(spec) && spec.secret.Some?
              && var at := (d.request.namespace, spec.secret.value.name);
                 at in s.store.secrets && SecretValue(s.store.secrets[at], spec.secret.value.key) == secret
            case Verified => e == Serve(h, Verify) && was.pc.SecretRead? && check(was.pc.spec.provider, d.request.payload, was.pc.secret)
            case _ => true)
  {
  }

  lemma {:induction false} PipelineIsBacked(check: Check, store: Store, es: seq<Event>, k: nat, h: nat)
    requires k <= |es| && h in StateAt(check, store, es, k).deliveries
    ensures Backed(check, store, es, k, h, StateAt(check, store, es, k).deliveries[h])
  {
    var before, d := StateAt(check, store, es, k - 1), StateAt(check, store, es, k).deliveries[h];
    PcStep(check, before, es[k - 1], h);
    if h in before.deliveries {
      PipelineIsBacked(check, store, es, k - 1, h);
      var was := before.deliveries[h];
      if d.pc != was.pc && d.pc.Found? {
        assert LookedUp(check, store, es, k - 1, h, d.pc.spec);
      } else if d.pc != was.pc && d.pc.SecretRead? {
        var l: nat :| l < k - 1 && LookedUp(check, store, es, l, h, was.pc.spec);
        assert ReadFor(check, store, es, l, k - 1, h, d.pc.spec, d.pc.secret);
      } else if d.pc != was.pc && d.pc.Verified? {
        var spec, secret := was.pc.spec, was.pc.secret;
        var l: nat, r: nat :| l < r < k - 1 && ReadFor(check, store, es, l, r, h, spec, secret);
        assert Checked(check, store, es, k - 1, h, d.request, spec, secret);
      }
    }
  }

  /**
   In every run, a Project's trigger annotation changes only when the Project is removed or when a
   delivery addressed to it patches it, and that delivery passed its credential check earlier on.
   */
  lemma TriggerOnlyThroughVerifiedDelivery(check: Check, store: Store, es: seq<Event>, k: nat, key: Key)
    requires k < |es|
    requires Trigger(StateAt(check, store, es, k + 1).store, key) != Trigger(StateAt(check, store, es, k).store, key)
    ensures es[k] == Remove(key) ||
      (&& es[k].Serve? && es[k].move.Patch? && es[k].h in StateAt(check, store, es, k).deliveries
       && KeyOf(StateAt(check, store, es, k).deliveries[es[k].h].request) == key
       && CheckPassed(check, store, es, k, es[k].h, StateAt(check, store, es, k).deliveries[es[k].h].request))
  {
    TriggerStep(check, StateAt(check, store, es, k), es[k], key);
    if es[k].Serve? {
      PipelineIsBacked(check, store, es, k, es[k].h);
    }
  }

  lemma TriggerStep(check: Check, s: State, e: Event, key: Key)
    requires Trigger(Step(check, s, e).store, key) != Trigger(s.store, key)
    ensures e == Remove(key) ||
      (&& e.Serve? && e.move.Patch? && e.h in s.deliveries && s.deliveries[e.h].pc.Verified?
       && KeyOf(s.deliveries[e.h].request) == key)
  {
  }

  predicate Accepts(pc: Pc) { (pc.Returning? || pc.Returned? || pc.Counted?) && pc.outcome == Accepted }

  /** Step p is delivery h's successful patch of its Project. */
  ghost predicate Patched(check: Check, store: Store, es: seq<Event>, p: nat, h: nat, request: Request) {
    && p < |es| && es[p].Serve? && es[p].h == h && es[p].move.Patch?
    && Trigger(StateAt(check, store, es, p + 1).store, KeyOf(request)) == Some(es[p].move.stamp)
    && CheckPassed(check, store, es, p, h, request)
  }

  lemma AcceptStep(check: Check, s: State, e: Event, h: nat)
    requires h in Step(check, s, e).deliveries && Accepts(Step(check, s, e).deliveries[h].pc)
    ensures h in s.deliveries && Step(check, s, e).deliveries[h].request == s.deliveries[h].request
    ensures !Accepts(s.deliveries[h].pc) ==>
      && s.deliveries[h].pc.Verified? && e.Serve? && e.h == h && e.move.Patch?
      && Trigger(Step(check, s, e).store, KeyOf(s.deliveries[h].request)) == Some(e.move.stamp)
  {
  }

  /** A delivery reported as accepted passed its check and set its Project's trigger. */
  lemma {:induction false} AcceptedMeansTriggered(check: Check, store: Store, es: seq<Event>, k: nat, h: nat)
    requires k <= |es| && h in StateAt(check, store, es, k).deliveries
    requires Accepts(StateAt(check, store, es, k).deliveries[h].pc)
    ensures exists p: nat :: p < k && Patched(check, store, es, p, h, StateAt(check, store, es, k).deliveries[h].request)
  {
    var before := StateAt(check, store, es, k - 1);
    AcceptStep(check, before, es[k - 1], h);
    if Accepts(before.deliveries[h].pc) {
      AcceptedMeansTriggered(check, store, es, k - 1, h);
    } else {
      PipelineIsBacked(check, store, es, k - 1, h);
      assert Patched(check, store, es, k - 1, h, before.deliveries[h].request);
    }
  }

  // ---------- what each stage decides ----------

  /** The secret is the entry stored under the reference's key, or under webhookSecret when that key is empty; a missing entry is empty. */
  lemma SecretIsStoredEntry(data: map<string, string>, key: string)
    ensures key != "" && key in data ==> SecretValue(data, key) == data[key]
    ensures key == "" && "webhookSecret" in data ==> SecretValue(data, key) == data["webhookSecret"]
    ensures key != "" && key !in data ==> SecretValue(data, key) == ""
    ensures key == "" && "webhookSecret" !in data ==> SecretValue(data, key) == ""
  {
  }

  /** The stages before the gate: what lets a delivery through, and how it is turned away otherwise. */
  lemma RoutingExactly(check: Check, s: State, h: nat, ok: bool)
    requires h in s.deliveries
    ensures var d := s.deliveries[h]; var r := d.request;
      && (d.pc.Admitted? ==>
            Step(check, s, Serve(h, Route)).deliveries[h].pc ==
            if r.post && r.project != "" && r.namespace != "" then Routed else Returning(Errored, true))
      && (d.pc.Routed? ==>
            Step(check, s, Serve(h, Lookup)).deliveries[h].pc ==
            var key := (r.namespace, r.project);
            if key in s.store.projects && s.store.projects[key].spec.secret.Some?
               && s.store.projects[key].spec.secret.value.name != ""
            then Found(s.store.projects[key].spec) else Returning(Rejected, true))
      && (d.pc.Found? ==>
            Step(check, s, Serve(h, ReadBody(ok))).deliveries[h].pc ==
            if ok then BodyRead(d.pc.spec) else Returning(Errored, true))
  {
  }

  /** The gate and after: a missing secret or a refused check is a rejection; a delivery whose check accepts and whose patch works is accepted. */
  lemma GateExactly(check: Check, s: State, h: nat, ok: bool, stamp: nat)
    requires h in s.deliveries
    ensures var d := s.deliveries[h]; var r := d.request;
      && (d.pc.BodyRead? && d.pc.spec.secret.Some? ==>
            var ref := d.pc.spec.secret.value; var at := (r.namespace, ref.name);
            Step(check, s, Serve(h, ReadSecret)).deliveries[h].pc ==
              if at in s.store.secrets then SecretRead(d.pc.spec, SecretValue(s.store.secrets[at], ref.key))
              else Returning(Rejected, true))
      && (d.pc.SecretRead? ==>
            Step(check, s, Serve(h, Verify)).deliveries[h].pc ==
            if check(d.pc.spec.provider, r.payload, d.pc.secret) then Verified else Returning(Rejected, true))
      && (d.pc.Verified? ==>
            var t := Step(check, s, Serve(h, Patch(ok, stamp))); var key := (r.namespace, r.project);
            && (t.deliveries[h].pc == Returning(Accepted, true) <==> ok && key in s.store.projects)
            && (t.deliveries[h].pc != Returning(Accepted, true) ==>
                  t.deliveries[h].pc == Returning(Errored, true) && t.store == s.store)
            && (t.deliveries[h].pc == Returning(Accepted, true) ==>
                  && t.store.secrets == s.store.secrets && t.store.projects.Keys == s.store.projects.Keys
                  && t.store.projects[key] == Project(s.store.projects[key].spec, Some(stamp))
                  && forall k <- s.store.projects | k != key :: t.store.projects[k] == s.store.projects[k]))
  {
  }

  /** A returned delivery is counted with the outcome it returned with. */
  lemma OutcomeIsCounted(check: Check, s: State, h: nat)
    requires h in s.deliveries
    ensures var d := s.deliveries[h];
      && (d.pc.Returned? ==>
            var t := Step(check, s, Serve(h, Count)); t.deliveries[h].pc == Counted(d.pc.outcome) && t.counted == s.counted + [h])
      && (d.pc.Returning? && (d.pc.holds ==> s.tokens > 0) ==>
            Step(check, s, Serve(h, Return)).deliveries[h].pc == Returned(d.pc.outcome))
  {
  }

  /** Edits of the store under the deliveries: a reconfiguration keeps the trigger, a secret replaces the one stored there. */
  lemma StoreEdits(check: Check, s: State, key: Key, spec: Spec, data: map<string, string>, h: nat, request: Request)
    ensures var t := Step(check, s, Configure(key, spec));
      && key in t.store.projects && t.store.projects[key].spec == spec && t.store.secrets == s.store.secrets
      && (forall k <- s.store.projects | k != key :: k in t.store.projects && t.store.projects[k] == s.store.projects[k])
      && Trigger(t.store, key) == Trigger(s.store, key)
    ensures Step(check, s, Remove(key)).store == s.store.(projects := s.store.projects - {key})
    ensures Step(check, s, PutSecret(key, data)).store == s.store.(secrets := s.store.secrets[key := data])
    ensures h !in s.deliveries ==>
      Step(check, s, Arrive(h, request)) == s.(deliveries := s.deliveries[h := Delivery(request, Arrived)])
  {
  }
}
