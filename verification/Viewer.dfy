/**
 The staleness guard of the artifact and build browsers. Each click opens a numbered request with two
 suspension points; headers, bodies and failures come back in any order.
 */
module Viewer {
  import opened Basics

  datatype View =
    | Blank // nothing selected in the artifact browser, the diff tab in the build browser
    | Content(request: nat, row: string, text: string, truncated: bool, size: nat)

  datatype Phase = AwaitHeaders | AwaitBody

  datatype Flight = Flight(row: string, phase: Phase)

  datatype State = State(latest: nat, loading: Option<string>, shown: View, inflight: map<nat, Flight>)

  datatype Event =
    | Click(row: string)
    | HeadersOk(request: nat)
    | HeadersBad(request: nat, status: string)
    | Body(request: nat, text: string, truncated: bool, size: nat)
    | Fail(request: nat)
    | Tab

  const INITIAL: State := State(0, None, Blank, map[])

  function Unavailable(request: nat, row: string, status: string): View {
    Content(request, row, "(content unavailable \U{2014} HTTP " + status + ")", false, 0)
  }

  function FetchFailed(request: nat, row: string): View {
    Content(request, row, "(content fetch failed)", false, 0)
  }

  /** The handler returns: its `finally` clears the marker unless a newer request owns it. */
  function Finish(s: State, request: nat): State {
    s.(inflight := s.inflight - {request}, loading := if request == s.latest then None else s.loading)
  }

  /** Show a view and return, unless the request is stale. */
  function Apply(s: State, request: nat, view: View): State {
    Finish(if request == s.latest then s.(shown := view) else s, request)
  }

  predicate Waiting(s: State, request: nat, phase: Phase) {
    request in s.inflight && s.inflight[request].phase == phase
  }

  /** One resumption of one handler; an event nobody waits for changes nothing. */
  function Step(s: State, e: Event): State {
    match e
    case Click(row) =>
      State(s.latest + 1, Some(row), s.shown, s.inflight[s.latest + 1 := Flight(row, AwaitHeaders)])
    case HeadersOk(q) =>
      if !Waiting(s, q, AwaitHeaders) then s
      else if q != s.latest then Finish(s, q)
      else s.(inflight := s.inflight[q := s.inflight[q].(phase := AwaitBody)])
    case HeadersBad(q, status) =>
      if !Waiting(s, q, AwaitHeaders) then s else Apply(s, q, Unavailable(q, s.inflight[q].row, status))
    case Body(q, text, truncated, size) =>
      if !Waiting(s, q, AwaitBody) then s else Apply(s, q, Content(q, s.inflight[q].row, text, truncated, size))
    case Fail(q) =>
      if q !in s.inflight then s else Apply(s, q, FetchFailed(q, s.inflight[q].row))
    case Tab => s.(shown := Blank)
  }

  function StateAt(es: seq<Event>, k: nat): State
    requires k <= |es|
  {
    if k == 0 then INITIAL else Step(StateAt(es, k - 1), es[k - 1])
  }

  // ---------- the clicks of a run ----------

  function Clicks(es: seq<Event>, k: nat): nat
    requires k <= |es|
  {
    if k == 0 then 0 else Clicks(es, k - 1) + if es[k - 1].Click? then 1 else 0
  }

  /** The c-th event is the click that opened this request, for this row. */
  ghost predicate OpenedBy(es: seq<Event>, request: nat, row: string, c: nat) {
    c < |es| && es[c] == Click(row) && Clicks(es, c) + 1 == request
  }

  /** What this event, answering this request, makes of the row. */
  ghost predicate Answers(e: Event, request: nat, row: string, view: View) {
    match e
    case HeadersBad(q, status) => q == request && view == Unavailable(q, row, status)
    case Body(q, text, truncated, size) => q == request && view == Content(q, row, text, truncated, size)
    case Fail(q) => q == request && view == FetchFailed(q, row)
    case _ => false
  }

  ghost predicate Inv(s: State) {
    && (s.shown.Content? ==> 0 < s.shown.request <= s.latest)
    && (forall q <- s.inflight :: 0 < q <= s.latest)
    && s.loading == (if s.latest in s.inflight then Some(s.inflight[s.latest].row) else None)
    && (s.latest in s.inflight && s.shown.Content? ==> s.shown.request < s.latest)
  }

  lemma StepKeepsInv(s: State, e: Event)
    requires Inv(s)
    ensures Inv(Step(s, e))
    ensures Step(s, e).latest == s.latest + if e.Click? then 1 else 0
    ensures Step(s, e).shown != s.shown && Step(s, e).shown.Content? ==> Step(s, e).shown.request == s.latest
  {
  }

  lemma {:induction false} InvAt(es: seq<Event>, k: nat)
    requires k <= |es|
    ensures Inv(StateAt(es, k)) && StateAt(es, k).latest == Clicks(es, k)
  {
    if k > 0 {
      InvAt(es, k - 1);
      StepKeepsInv(StateAt(es, k - 1), es[k - 1]);
    }
  }

  // ---------- the guard, over every run ----------

  lemma {:induction false} LatestNeverFalls(es: seq<Event>, i: nat, j: nat)
    requires i <= j <= |es|
    ensures StateAt(es, i).latest <= StateAt(es, j).latest
  {
    if i < j {
      LatestNeverFalls(es, i, j - 1);
    }
  }

  /** Whatever the order of responses, and whatever tab clicks come between, the shown request never goes back. */
  lemma {:induction false} ShownNeverGoesBack(es: seq<Event>, i: nat, j: nat)
    requires i <= j <= |es| && StateAt(es, i).shown.Content? && StateAt(es, j).shown.Content?
    ensures StateAt(es, i).shown.request <= StateAt(es, j).shown.request
  {
    if i < j {
      var before := StateAt(es, j - 1);
      InvAt(es, i);
      InvAt(es, j - 1);
      StepKeepsInv(before, es[j - 1]);
      if before.shown == StateAt(es, j).shown {
        ShownNeverGoesBack(es, i, j - 1);
      } else {
        LatestNeverFalls(es, i, j - 1);
      }
    }
  }

  /** Every request in flight was opened by its own click, for the row it carries. */
  lemma {:induction false} FlightWasClicked(es: seq<Event>, k: nat, q: nat)
    requires k <= |es| && q in StateAt(es, k).inflight
    ensures exists c: nat :: c < k && OpenedBy(es, q, StateAt(es, k).inflight[q].row, c)
  {
    InvAt(es, k - 1);
    if es[k - 1].Click? && q == StateAt(es, k - 1).latest + 1 {
      assert OpenedBy(es, q, es[k - 1].row, k - 1);
    } else {
      FlightWasClicked(es, k - 1, q);
    }
  }

  /** What is on screen is the clicked row's own answer: never another row's, never a stale one's. */
  lemma {:induction false} ShownIsTheRowsOwnAnswer(es: seq<Event>, k: nat)
    requires k <= |es| && StateAt(es, k).shown.Content?
    ensures var view := StateAt(es, k).shown;
      exists c: nat, m: nat ::
        && c < m < k && OpenedBy(es, view.request, view.row, c) && Answers(es[m], view.request, view.row, view)
        && Clicks(es, m) == view.request
  {
    var before, view := StateAt(es, k - 1), StateAt(es, k).shown;
    if before.shown == view {
      ShownIsTheRowsOwnAnswer(es, k - 1);
    } else {
      InvAt(es, k - 1);
      StepKeepsInv(before, es[k - 1]);
      FlightWasClicked(es, k - 1, view.request);
      assert Answers(es[k - 1], view.request, view.row, view);
    }
  }

  lemma {:induction false} SameNumberSameClick(es: seq<Event>, c: nat, d: nat)
    requires c < d < |es| && es[c].Click?
    ensures Clicks(es, c) < Clicks(es, d)
  {
    if c + 1 < d {
      SameNumberSameClick(es, c, d - 1);
    }
  }

  /** The marker names a row exactly while the newest request is in flight, and then that request's row. */
  lemma MarkerFollowsNewest(es: seq<Event>, k: nat)
    requires k <= |es|
    ensures var s := StateAt(es, k); s.loading.Some? <==> s.latest in s.inflight
    ensures var s := StateAt(es, k);
      s.loading.Some? ==> exists c: nat :: c < k && OpenedBy(es, Clicks(es, k), s.loading.value, c)
  {
    InvAt(es, k);
    var s := StateAt(es, k);
    if s.latest in s.inflight { FlightWasClicked(es, k, s.latest); }
  }

  // ---------- which view is final ----------

  /** Event m is the one that settled the newest request of the run up to k. */
  ghost predicate SettlesNewest(es: seq<Event>, k: nat, m: nat)
    requires k <= |es|
  {
    && m < k && Clicks(es, m) == Clicks(es, k)
    && Clicks(es, m) in StateAt(es, m).inflight && Clicks(es, m) !in StateAt(es, m + 1).inflight
  }

  ghost predicate TabIn(es: seq<Event>, from: nat, to: nat)
    requires to <= |es|
  {
    exists i: nat :: from <= i < to && es[i].Tab?
  }

  /** A step after which the newest request is not in flight either settled it, or left the screen to the tab. */
  lemma SettleStep(s: State, e: Event)
    requires Inv(s) && Step(s, e).latest !in Step(s, e).inflight
    ensures !e.Click? && Step(s, e).latest == s.latest
    ensures var shown := Step(s, e).shown;
      if s.latest in s.inflight then shown.Content? && shown.request == s.latest && shown.row == s.inflight[s.latest].row
      else shown == if e.Tab? then Blank else s.shown
  {
  }

  /**
   Once the newest request has settled, the viewer shows its row unless the diff tab was clicked
   after it settled. A tab clicked while the request was in flight is overwritten.
   */
  lemma {:induction false} FinalView(es: seq<Event>, k: nat)
    requires k <= |es| && Clicks(es, k) > 0 && Clicks(es, k) !in StateAt(es, k).inflight
    ensures exists m: nat :: SettlesNewest(es, k, m) && (StateAt(es, k).shown.Content? <==> !TabIn(es, m + 1, k))
    ensures var view := StateAt(es, k).shown;
      view.Content? ==> view.request == Clicks(es, k) && exists c: nat :: c < k && OpenedBy(es, Clicks(es, k), view.row, c)
  {
    var before, after := StateAt(es, k - 1), StateAt(es, k);
    InvAt(es, k - 1);
    InvAt(es, k);
    SettleStep(before, es[k - 1]);
    if before.latest in before.inflight {
      assert SettlesNewest(es, k, k - 1) && !TabIn(es, k, k);
      FlightWasClicked(es, k - 1, before.latest);
    } else {
      FinalView(es, k - 1);
      var m: nat :| SettlesNewest(es, k - 1, m) && (before.shown.Content? <==> !TabIn(es, m + 1, k - 1));
      assert SettlesNewest(es, k, m);
      if es[k - 1].Tab? {
        assert TabIn(es, m + 1, k);
      } else {
        assert TabIn(es, m + 1, k) <==> TabIn(es, m + 1, k - 1);
      }
    }
  }

  /** The artifact browser has no tab: once nothing is in flight it shows the last row clicked. */
  lemma QuietArtifactViewerShowsLastClick(es: seq<Event>, c: nat)
    requires c < |es| && es[c].Click? && (forall i | c < i < |es| :: !es[i].Click?)
    requires (forall i | 0 <= i < |es| :: !es[i].Tab?) && StateAt(es, |es|).inflight == map[]
    ensures var s := StateAt(es, |es|); s.shown.Content? && s.shown.row == es[c].row && s.loading == None
  {
    ClicksAfterLast(es, c, |es|);
    FinalView(es, |es|);
    InvAt(es, |es|);
    var view := StateAt(es, |es|).shown;
    var d: nat :| d < |es| && OpenedBy(es, Clicks(es, |es|), view.row, d);
    if c < d { SameNumberSameClick(es, c, d); }
    if d < c { SameNumberSameClick(es, d, c); }
  }

  lemma {:induction false} ClicksAfterLast(es: seq<Event>, c: nat, k: nat)
    requires c < k <= |es| && es[c].Click? && forall i | c < i < |es| :: !es[i].Click?
    ensures Clicks(es, k) == Clicks(es, c) + 1
  {
    if c + 1 < k {
      ClicksAfterLast(es, c, k - 1);
    }
  }

  // ---------- refinement of a viewer that cancels ----------

  /** A viewer that holds at most one request and really cancels it on the next click. */
  datatype Single = Single(number: nat, shown: View, pending: Option<Flight>)

  function SingleStep(s: Single, e: Event): Single {
    match e
    case Click(row) => Single(s.number + 1, s.shown, Some(Flight(row, AwaitHeaders)))
    case Tab => s.(shown := Blank)
    case HeadersOk(q) =>
      if Holds(s, q, AwaitHeaders) then s.(pending := Some(s.pending.value.(phase := AwaitBody))) else s
    case HeadersBad(q, status) =>
      if Holds(s, q, AwaitHeaders) then Single(q, Unavailable(q, s.pending.value.row, status), None) else s
    case Body(q, text, truncated, size) =>
      if Holds(s, q, AwaitBody) then Single(q, Content(q, s.pending.value.row, text, truncated, size), None) else s
    case Fail(q) =>
      if q == s.number && s.pending.Some? then Single(q, FetchFailed(q, s.pending.value.row), None) else s
  }

  predicate Holds(s: Single, q: nat, phase: Phase) {
    q == s.number && s.pending.Some? && s.pending.value.phase == phase
  }

  function SingleAt(es: seq<Event>, k: nat): Single
    requires k <= |es|
  {
    if k == 0 then Single(0, Blank, None) else SingleStep(SingleAt(es, k - 1), es[k - 1])
  }

  function Newest(s: State): Single {
    Single(s.latest, s.shown, if s.latest in s.inflight then Some(s.inflight[s.latest]) else None)
  }

  lemma NewestStep(s: State, e: Event)
    requires Inv(s)
    ensures Newest(Step(s, e)) == SingleStep(Newest(s), e)
  {
  }

  /** The counter guard is as good as cancelling: for every run, screen and marker are those of the cancelling viewer. */
  lemma {:induction false} GuardRefinesCancelling(es: seq<Event>, k: nat)
    requires k <= |es|
    ensures Newest(StateAt(es, k)) == SingleAt(es, k)
    ensures var one := SingleAt(es, k);
      StateAt(es, k).loading == if one.pending.Some? then Some(one.pending.value.row) else None
  {
    InvAt(es, k);
    if k > 0 {
      GuardRefinesCancelling(es, k - 1);
      InvAt(es, k - 1);
      NewestStep(StateAt(es, k - 1), es[k - 1]);
    }
  }

  /** A superseded request leaves the flight at its next answer, whatever it is, and touches neither screen nor marker. */
  lemma StaleRequestsLeave(s: State, q: nat, status: string, text: string, truncated: bool, size: nat)
    requires q in s.inflight && q != s.latest
    ensures var phase, gone := s.inflight[q].phase, s.(inflight := s.inflight - {q});
      && (phase == AwaitHeaders ==> Step(s, HeadersOk(q)) == gone && Step(s, HeadersBad(q, status)) == gone)
      && (phase == AwaitBody ==> Step(s, Body(q, text, truncated, size)) == gone)
      && Step(s, Fail(q)) == gone
  {
  }

  /** What the newest request puts on the screen: the body as decoded, or one of the two notices, empty and not truncated. */
  lemma ScreenTexts(s: State, status: string, text: string, truncated: bool, size: nat)
    requires s.latest in s.inflight
    ensures var q, row, phase := s.latest, s.inflight[s.latest].row, s.inflight[s.latest].phase;
      && (phase == AwaitBody ==> Step(s, Body(q, text, truncated, size)).shown == Content(q, row, text, truncated, size))
      && (phase == AwaitHeaders ==>
            Step(s, HeadersBad(q, status)).shown == Content(q, row, "(content unavailable \U{2014} HTTP " + status + ")", false, 0))
      && Step(s, Fail(q)).shown == Content(q, row, "(content fetch failed)", false, 0)
  {
  }
}
