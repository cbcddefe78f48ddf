/**
 The level-triggered repo-sync loop: webhook deliveries and poll ticks trigger a full idempotent
 upsert of the provider's current records into an untrusted mirror. What the provider holds at each
 pass is an arbitrary snapshot.
 */
module RepoSync {
  import opened Basics

  datatype Rec = Rec(kind: string, externalId: string, state: string, title: string, actor: string)

  datatype Origin = Origin(provider: string, repo: string, externalId: string, actor: string)

  datatype Row = Row(kind: string, externalId: string, state: string, title: string, origin: Origin, trust: string)

  type Key = (string, string)

  const BOT: string := "ksquad-bot"
  const UNTRUSTED: string := "untrusted-external"

  /** The provider behind the seam and the repository it serves. */
  datatype Source = Source(provider: string, repo: string)

  datatype Event = Webhook(signature: string, payloadId: string) | Poll | OtherEvent

  predicate HmacValid(signature: string, secret: string) { signature == "sig(" + secret + ")" }

  function KeyOf(r: Rec): Key { (r.kind, r.externalId) }

  function RowOf(src: Source, r: Rec): Row {
    Row(r.kind, r.externalId, r.state, r.title, Origin(src.provider, src.repo, r.externalId, r.actor), UNTRUSTED)
  }

  predicate Effective(ev: Event, secret: string) {
    ev.Poll? || (ev.Webhook? && HmacValid(ev.signature, secret))
  }

  function Passes(events: seq<Event>, secret: string): nat {
    if events == [] then 0
    else Passes(events[..|events| - 1], secret) + if Effective(events[|events| - 1], secret) then 1 else 0
  }

  function Polls(events: seq<Event>): nat {
    if events == [] then 0 else Polls(events[..|events| - 1]) + if events[|events| - 1].Poll? then 1 else 0
  }

  /** The payload ids of the deliveries with a bad signature, in order. */
  function Forged(events: seq<Event>, secret: string): seq<string> {
    if events == [] then []
    else
      var rest, ev := Forged(events[..|events| - 1], secret), events[|events| - 1];
      if ev.Webhook? && !HmacValid(ev.signature, secret) then rest + [ev.payloadId] else rest
  }

  /** Upsert records in order; our own reflected writes are suppressed. */
  ghost function Overlay(m: map<Key, Row>, src: Source, recs: seq<Rec>): map<Key, Row> {
    if recs == [] then m
    else
      var before, r := Overlay(m, src, recs[..|recs| - 1]), recs[|recs| - 1];
      if r.actor == BOT then before else before[KeyOf(r) := RowOf(src, r)]
  }

  /** The records of the first n passes, in order. */
  ghost function Stream(snapshots: nat -> seq<Rec>, n: nat): seq<Rec> {
    if n == 0 then [] else Stream(snapshots, n - 1) + snapshots(n - 1)
  }

  class Reconciler {
    const source: Source
    const secret: string
    var mirror: map<Key, Row>
    var dropped: seq<string>
    var polls: nat
    var passes: nat

    constructor (source: Source, secret: string)
      ensures this.source == source && this.secret == secret
      ensures mirror == map[] && dropped == [] && polls == 0 && passes == 0
    {
      this.source, this.secret := source, secret;
      mirror, dropped, polls, passes := map[], [], 0, 0;
    }

    method ReconcileFromProvider(snapshot: seq<Rec>)
      modifies this`mirror, this`passes
      ensures mirror == Overlay(old(mirror), source, snapshot) && passes == old(passes) + 1
    {
      passes := passes + 1;
      for n := 0 to |snapshot|
        invariant mirror == Overlay(old(mirror), source, snapshot[..n]) && passes == old(passes) + 1
      {
        assert snapshot[..n + 1][..n] == snapshot[..n];
        var rec := snapshot[n];
        if rec.actor != BOT {
          mirror := mirror[KeyOf(rec) := RowOf(source, rec)];
        }
      }
      assert snapshot[..|snapshot|] == snapshot;
    }

    /**
     The event loop. The mirror is the in-order overlay of the snapshots of the effective passes;
     bad-signature deliveries are dropped and payload ids never reach the mirror.
     */
    method Run(events: seq<Event>, snapshots: nat -> seq<Rec>)
      requires mirror == map[] && dropped == [] && polls == 0 && passes == 0
      modifies this
      ensures mirror == Overlay(map[], source, Stream(snapshots, Passes(events, secret)))
      ensures passes == Passes(events, secret) && polls == Polls(events) && dropped == Forged(events, secret)
    {
      for n := 0 to |events|
        invariant passes == Passes(events[..n], secret) && polls == Polls(events[..n])
        invariant dropped == Forged(events[..n], secret)
        invariant mirror == Overlay(map[], source, Stream(snapshots, passes))
      {
        assert events[..n + 1][..n] == events[..n];
        var ev := events[n];
        OverlayOfSum(map[], source, Stream(snapshots, passes), snapshots(passes));
        match ev
        case Webhook(signature, payloadId) =>
          if HmacValid(signature, secret) {
            ReconcileFromProvider(snapshots(passes));
          } else {
            dropped := dropped + [payloadId];
          }
        case Poll =>
          polls := polls + 1;
          ReconcileFromProvider(snapshots(passes));
        case OtherEvent =>
      }
      assert events[..|events|] == events;
    }
  }

  // ---------- what the overlay means ----------

  lemma {:induction false} OverlayOfSum(m: map<Key, Row>, src: Source, a: seq<Rec>, b: seq<Rec>)
    ensures Overlay(m, src, a + b) == Overlay(Overlay(m, src, a), src, b)
  {
    if b == [] {
      assert a + b == a;
    } else {
      assert (a + b)[..|a + b| - 1] == a + b[..|b| - 1];
      OverlayOfSum(m, src, a, b[..|b| - 1]);
    }
  }

  /** Record i is the last one written under this key. */
  ghost predicate LastWrite(recs: seq<Rec>, key: Key, i: nat) {
    && i < |recs| && KeyOf(recs[i]) == key && recs[i].actor != BOT
    && forall j | i < j < |recs| :: KeyOf(recs[j]) != key || recs[j].actor == BOT
  }

  ghost predicate Written(recs: seq<Rec>, key: Key) {
    exists i :: 0 <= i < |recs| && KeyOf(recs[i]) == key && recs[i].actor != BOT
  }

  lemma {:induction false} LastWriteOverlays(m: map<Key, Row>, src: Source, recs: seq<Rec>, key: Key, i: nat)
    requires LastWrite(recs, key, i)
    ensures key in Overlay(m, src, recs) && Overlay(m, src, recs)[key] == RowOf(src, recs[i])
  {
    if i < |recs| - 1 { LastWriteOverlays(m, src, recs[..|recs| - 1], key, i); }
  }

  lemma {:induction false} UnwrittenKeyStays(m: map<Key, Row>, src: Source, recs: seq<Rec>, key: Key)
    requires !Written(recs, key)
    ensures (key in Overlay(m, src, recs) <==> key in m) && (key in m ==> Overlay(m, src, recs)[key] == m[key])
  {
    if recs != [] {
      var front := recs[..|recs| - 1];
      assert forall i | 0 <= i < |front| :: front[i] == recs[i];
      UnwrittenKeyStays(m, src, front, key);
    }
  }

  lemma {:induction false} WrittenHasLastWrite(recs: seq<Rec>, key: Key) returns (i: nat)
    requires Written(recs, key)
    ensures LastWrite(recs, key, i)
  {
    i := |recs| - 1;
    if KeyOf(recs[i]) != key || recs[i].actor == BOT {
      var front := recs[..|recs| - 1];
      var j :| 0 <= j < |recs| && KeyOf(recs[j]) == key && recs[j].actor != BOT;
      assert KeyOf(front[j]) == key;
      i := WrittenHasLastWrite(front, key);
    }
  }

  /** The mirror is a declarative last-writer-wins view of the non-bot records. */
  lemma OverlayIsLastWriterWins(m: map<Key, Row>, src: Source, recs: seq<Rec>, key: Key)
    ensures key in Overlay(m, src, recs) <==> key in m || Written(recs, key)
    ensures Written(recs, key) ==>
      exists i: nat :: LastWrite(recs, key, i) && Overlay(m, src, recs)[key] == RowOf(src, recs[i])
    ensures !Written(recs, key) && key in m ==> Overlay(m, src, recs)[key] == m[key]
  {
    if Written(recs, key) {
      var i := WrittenHasLastWrite(recs, key);
      LastWriteOverlays(m, src, recs, key, i);
    } else {
      UnwrittenKeyStays(m, src, recs, key);
    }
  }

  lemma LastWriteIsUnique(recs: seq<Rec>, key: Key, i: nat, j: nat)
    requires LastWrite(recs, key, i) && LastWrite(recs, key, j)
    ensures i == j
  {
  }

  /** Re-delivering the same provider state is a no-op. */
  lemma OverlayIsIdempotent(m: map<Key, Row>, src: Source, recs: seq<Rec>)
    ensures Overlay(Overlay(m, src, recs), src, recs) == Overlay(m, src, recs)
  {
    var once := Overlay(m, src, recs);
    var twice := Overlay(once, src, recs);
    forall key ensures (key in twice <==> key in once) && (key in once ==> twice[key] == once[key]) {
      OverlayIsLastWriterWins(m, src, recs, key);
      OverlayIsLastWriterWins(once, src, recs, key);
      if Written(recs, key) {
        var i: nat :| LastWrite(recs, key, i) && once[key] == RowOf(src, recs[i]);
        var j: nat :| LastWrite(recs, key, j) && twice[key] == RowOf(src, recs[j]);
        LastWriteIsUnique(recs, key, i, j);
      }
    }
  }

  /** With an unchanging provider the mirror depends only on whether one effective event ever happened. */
  lemma {:induction false} SteadyProviderConverges(src: Source, snapshot: seq<Rec>, n: nat)
    ensures Overlay(map[], src, Stream(_ => snapshot, n)) == if n == 0 then map[] else Overlay(map[], src, snapshot)
  {
    if n > 0 {
      SteadyProviderConverges(src, snapshot, n - 1);
      OverlayOfSum(map[], src, Stream(_ => snapshot, n - 1), snapshot);
      OverlayIsIdempotent(map[], src, snapshot);
    }
  }

  /** Forged deliveries can be erased from the stream, and payload ids rewritten, without any trace in the mirror. */
  lemma {:induction false} ForgeriesAndPayloadsDoNotMatter(events: seq<Event>, genuine: seq<Event>, secret: string)
    requires genuine == Genuine(events, secret)
    ensures Passes(genuine, secret) == Passes(events, secret) && Polls(genuine) == Polls(events)
    ensures Forged(genuine, secret) == []
  {
    if events != [] {
      var front := Genuine(events[..|events| - 1], secret);
      ForgeriesAndPayloadsDoNotMatter(events[..|events| - 1], front, secret);
      if genuine != front { assert genuine[..|genuine| - 1] == front; }
    }
  }

  /** The stream with its forged deliveries removed and every payload id blanked. */
  function Genuine(events: seq<Event>, secret: string): seq<Event> {
    if events == [] then []
    else
      var rest, ev := Genuine(events[..|events| - 1], secret), events[|events| - 1];
      if ev.Webhook? && !HmacValid(ev.signature, secret) then rest
      else if ev.Webhook? then rest + [ev.(payloadId := "")]
      else rest + [ev]
  }

  ghost function Rebrand(m: map<Key, Row>, provider: string): map<Key, Row> {
    map key | key in m :: m[key].(origin := m[key].origin.(provider := provider))
  }

  /** The seam: through another provider the same records give the same mirror but for the provider stamp. */
  lemma {:induction false} ProvidersAreInterchangeable(a: Source, provider: string, recs: seq<Rec>)
    ensures Overlay(map[], a.(provider := provider), recs) == Rebrand(Overlay(map[], a, recs), provider)
  {
    if recs != [] {
      ProvidersAreInterchangeable(a, provider, recs[..|recs| - 1]);
    }
  }

  /** Every mirrored row is untrusted, carries its provenance, sits under its own key and is not our own echo. */
  lemma MirrorIsUntrustedAndProvenanced(src: Source, recs: seq<Rec>, key: Key)
    requires key in Overlay(map[], src, recs)
    ensures var row := Overlay(map[], src, recs)[key];
      && row.trust == UNTRUSTED && (row.kind, row.externalId) == key
      && row.origin.provider == src.provider && row.origin.repo == src.repo && row.origin.externalId == key.1
      && row.origin.actor != BOT
  {
    OverlayIsLastWriterWins(map[], src, recs, key);
  }

  /** Every key written by the earlier records is written by the latest ones too. */
  ghost predicate NoKeyVanished(earlier: seq<Rec>, latest: seq<Rec>) {
    forall key | Written(earlier, key) :: Written(latest, key)
  }

  /**
   Level-triggered is not the same as equal: after a pass the mirror is exactly that pass's snapshot
   if and only if no key of an earlier pass has disappeared from it, because the upsert never deletes.
   */
  lemma MirrorEqualsLatestSnapshotIff(src: Source, snapshots: nat -> seq<Rec>, n: nat)
    requires n > 0
    ensures Overlay(map[], src, Stream(snapshots, n)) == Overlay(map[], src, snapshots(n - 1))
       <==> NoKeyVanished(Stream(snapshots, n - 1), snapshots(n - 1))
  {
    var earlier, latest := Stream(snapshots, n - 1), snapshots(n - 1);
    var m := Overlay(map[], src, earlier);
    OverlayOfSum(map[], src, earlier, latest);
    var whole, fresh_ := Overlay(m, src, latest), Overlay(map[], src, latest);
    forall key
      ensures key in m <==> Written(earlier, key)
      ensures key in fresh_ <==> Written(latest, key)
      ensures key in whole <==> key in m || Written(latest, key)
      ensures Written(latest, key) ==> whole[key] == fresh_[key]
    {
      OverlayIsLastWriterWins(map[], src, earlier, key);
      OverlayIsLastWriterWins(map[], src, latest, key);
      OverlayIsLastWriterWins(m, src, latest, key);
      if Written(latest, key) {
        var i: nat :| LastWrite(latest, key, i) && whole[key] == RowOf(src, latest[i]);
        var j: nat :| LastWrite(latest, key, j) && fresh_[key] == RowOf(src, latest[j]);
        LastWriteIsUnique(latest, key, i, j);
      }
    }
    if NoKeyVanished(earlier, latest) {
      assert whole.Keys == fresh_.Keys;
    } else {
      var key :| Written(earlier, key) && !Written(latest, key);
      assert key in whole && key !in fresh_;
    }
  }

  /** A record closed upstream and gone from the next snapshot stays in the mirror. */
  lemma DeletedRecordStays(src: Source, r: Rec)
    requires r.actor != BOT
    ensures var snapshots := (n: nat) => if n == 0 then [r] else [];
      Overlay(map[], src, Stream(snapshots, 2)) != Overlay(map[], src, snapshots(1))
  {
    var snapshots := (n: nat) => if n == 0 then [r] else [];
    assert Stream(snapshots, 0) == [];
    assert Stream(snapshots, 1) == [r];
    assert KeyOf(Stream(snapshots, 1)[0]) == KeyOf(r);
    assert Written(Stream(snapshots, 1), KeyOf(r)) && !Written(snapshots(1), KeyOf(r));
    MirrorEqualsLatestSnapshotIff(src, snapshots, 2);
  }

  /** Field by field, a mirrored row says what the last record written under its key said. */
  lemma RowSaysTheLastRecord(src: Source, recs: seq<Rec>, key: Key) returns (i: nat)
    requires Written(recs, key)
    ensures LastWrite(recs, key, i) && recs[i].actor != "ksquad-bot" && key in Overlay(map[], src, recs)
    ensures var row := Overlay(map[], src, recs)[key];
      && row.kind == recs[i].kind && row.externalId == recs[i].externalId
      && row.state == recs[i].state && row.title == recs[i].title
      && row.origin.provider == src.provider && row.origin.repo == src.repo
      && row.origin.externalId == recs[i].externalId && row.origin.actor == recs[i].actor
      && row.trust == "untrusted-external"
  {
    i := WrittenHasLastWrite(recs, key);
    LastWriteOverlays(map[], src, recs, key, i);
  }

  /** A delivery triggers a pass exactly when its signature is the one made with the project's secret; a poll always does. */
  lemma EffectiveIff(ev: Event, secret: string)
    ensures Effective(ev, secret) <==> ev == Poll || (ev.Webhook? && ev.signature == "sig(" + secret + ")")
  {
  }
}
