/** The every-boot ownership check: who should own each managed schema, and which tables drift from it. */
module Ownership {
  import opened Basics

  datatype Row = Row(schema: string, table: string, owner: string, sel: bool, ins: bool, upd: bool, del: bool)

  datatype Drift = Drift(
    schema: string, table: string, owner: string, intended: string, missing: seq<string>, ambiguous: bool)

  const MANAGED: seq<string> := ["auth", "coord", "discussion", "scm"]

  // ---------- what the check is meant to say ----------

  ghost function Owners(rs: seq<Row>): set<string> { set r <- rs :: r.owner }

  /** How many tables this owner has. */
  function Tables(rs: seq<Row>, owner: string): nat {
    if rs == [] then 0
    else Tables(rs[..|rs| - 1], owner) + if rs[|rs| - 1].owner == owner then 1 else 0
  }

  /** The intended owner: the least name among those with the most tables. */
  ghost predicate Intended(rs: seq<Row>, owner: string) {
    owner in Owners(rs) && BestOf(rs, Owners(rs), owner)
  }

  ghost predicate BestOf(rs: seq<Row>, group: set<string>, owner: string) {
    forall o <- group :: NoWorse(rs, owner, o)
  }

  /** Count descending, then name ascending. */
  ghost predicate NoWorse(rs: seq<Row>, a: string, b: string) {
    Tables(rs, b) < Tables(rs, a) || (Tables(rs, b) == Tables(rs, a) && LexLe(a, b))
  }

  lemma NoWorseIsTotalOrder(rs: seq<Row>, a: string, b: string, c: string)
    ensures NoWorse(rs, a, b) || NoWorse(rs, b, a)
    ensures NoWorse(rs, a, b) && NoWorse(rs, b, a) ==> a == b
    ensures NoWorse(rs, a, b) && NoWorse(rs, b, c) ==> NoWorse(rs, a, c)
  {
    LexTotal(a, b);
    if LexLe(a, b) && LexLe(b, c) { LexTransitive(a, b, c); }
  }

  /** Two owners share the lead, so the direction of a repair is undecidable. */
  ghost predicate Tied(rs: seq<Row>) {
    exists o, p :: o in Owners(rs) && p in Owners(rs) && o != p && Leads(rs, o) && Leads(rs, p)
  }

  ghost predicate Leads(rs: seq<Row>, owner: string) {
    forall o <- Owners(rs) :: Tables(rs, o) <= Tables(rs, owner)
  }

  predicate FullDml(r: Row) { r.sel && r.ins && r.upd && r.del }

  function Missing(r: Row): seq<string> {
    (if r.sel then [] else ["SELECT"]) + (if r.ins then [] else ["INSERT"]) +
    (if r.upd then [] else ["UPDATE"]) + (if r.del then [] else ["DELETE"])
  }

  function OfSchema(rows: seq<Row>, schema: string): seq<Row> {
    if rows == [] then []
    else
      var front := OfSchema(rows[..|rows| - 1], schema);
      if rows[|rows| - 1].schema == schema then front + [rows[|rows| - 1]] else front
  }

  /** The report for some of a schema's tables, in order. */
  function Reports(rs: seq<Row>, intended: string, tied: bool): seq<Drift> {
    if rs == [] then []
    else
      var front, r := Reports(rs[..|rs| - 1], intended, tied), rs[|rs| - 1];
      if tied || r.owner != intended || Missing(r) != [] then
        front + [Drift(r.schema, r.table, r.owner, intended, Missing(r), tied)]
      else front
  }

  /** The owner of a nonempty schema, as a function of its tables alone. */
  ghost function IntendedOwner(rs: seq<Row>): (owner: string)
    requires rs != []
    ensures Intended(rs, owner)
  {
    assert rs[0].owner in Owners(rs);
    SomeoneIsBest(rs, Owners(rs));
    var owner :| owner in Owners(rs) && BestOf(rs, Owners(rs), owner);
    owner
  }

  /** Among any nonempty group of owners one is best. */
  lemma {:induction false} SomeoneIsBest(rs: seq<Row>, group: set<string>)
    requires group != {}
    ensures exists best :: best in group && BestOf(rs, group, best)
    decreases |group|
  {
    var o :| o in group;
    NoWorseIsTotalOrder(rs, o, o, o);
    if group == {o} {
      assert BestOf(rs, group, o);
    } else {
      var others := group - {o};
      assert group == others + {o};
      SomeoneIsBest(rs, others);
      var p :| p in others && BestOf(rs, others, p);
      NoWorseIsTotalOrder(rs, o, p, o);
      if NoWorse(rs, p, o) {
        assert BestOf(rs, group, p);
      } else {
        forall q <- others ensures NoWorse(rs, o, q) { NoWorseIsTotalOrder(rs, o, p, q); }
        assert BestOf(rs, group, o);
      }
    }
  }

  ghost function SchemaReport(rs: seq<Row>): seq<Drift> {
    if rs == [] then [] else Reports(rs, IntendedOwner(rs), Tied(rs))
  }

  /** One report per schema, in order. */
  ghost function FullReport(rows: seq<Row>, schemas: seq<string>): seq<Drift> {
    if schemas == [] then []
    else FullReport(rows, schemas[..|schemas| - 1]) + SchemaReport(OfSchema(rows, schemas[|schemas| - 1]))
  }

  // ---------- the code ----------

  method CountOwners(rs: seq<Row>) returns (counts: map<string, nat>)
    ensures counts.Keys == Owners(rs) && forall o <- counts :: counts[o] == Tables(rs, o)
  {
    counts := map[];
    for n := 0 to |rs|
      invariant counts.Keys == Owners(rs[..n])
      invariant forall o <- counts :: counts[o] == Tables(rs[..n], o)
    {
      assert rs[..n + 1][..n] == rs[..n];
      NobodysTables(rs[..n], rs[n].owner);
      assert Owners(rs[..n + 1]) == Owners(rs[..n]) + {rs[n].owner};
      counts := counts[rs[n].owner := (if rs[n].owner in counts then counts[rs[n].owner] else 0) + 1];
    }
    assert rs[..|rs|] == rs;
  }

  lemma {:induction false} NobodysTables(rs: seq<Row>, owner: string)
    ensures owner !in Owners(rs) ==> Tables(rs, owner) == 0
    ensures owner in Owners(rs) ==> Tables(rs, owner) > 0
  {
    if rs != [] {
      NobodysTables(rs[..|rs| - 1], owner);
      assert rs == rs[..|rs| - 1] + [rs[|rs| - 1]];
    }
  }

  /** Walks the counts in whatever order the map yields them. */
  method PickOwner(rs: seq<Row>, counts: map<string, nat>) returns (intended: string, max: int)
    requires rs != [] && counts.Keys == Owners(rs) && forall o <- counts :: counts[o] == Tables(rs, o)
    ensures Intended(rs, intended) && max == Tables(rs, intended)
  {
    intended, max := "", -1;
    var left := counts.Keys;
    while left != {}
      invariant left <= counts.Keys
      invariant if left == counts.Keys then max == -1 else intended in counts && max == counts[intended]
      invariant left != counts.Keys ==> BestOf(rs, counts.Keys - left, intended)
    {
      var o :| o in left;
      ghost var was, seen, first := intended, counts.Keys - left, left == counts.Keys;
      left := left - {o};
      assert counts.Keys - left == seen + {o};
      if counts[o] > max || (counts[o] == max && !LexLe(intended, o)) {
        intended, max := o, counts[o];
      }
      NoWorseIsTotalOrder(rs, o, o, o);
      NoWorseIsTotalOrder(rs, o, was, o);
      forall p <- seen | !first ensures NoWorse(rs, intended, p) { NoWorseIsTotalOrder(rs, o, was, p); }
    }
    assert rs[0].owner in Owners(rs);
  }

  method IsTied(rs: seq<Row>, counts: map<string, nat>, intended: string, max: int) returns (tied: bool)
    requires counts.Keys == Owners(rs) && forall o <- counts :: counts[o] == Tables(rs, o)
    requires Intended(rs, intended) && max == Tables(rs, intended)
    ensures tied == Tied(rs)
  {
    tied := false;
    var left := counts.Keys;
    while left != {}
      invariant left <= counts.Keys
      invariant tied <==> exists o <- counts.Keys - left :: o != intended && counts[o] == max
    {
      var o :| o in left;
      left := left - {o};
      if o != intended && counts[o] == max {
        tied := true;
      }
    }
    TiedIffSomeoneMatches(rs, intended);
  }

  lemma TiedIffSomeoneMatches(rs: seq<Row>, intended: string)
    requires Intended(rs, intended)
    ensures Tied(rs) <==> exists o <- Owners(rs) :: o != intended && Tables(rs, o) == Tables(rs, intended)
  {
    if Tied(rs) {
      var o, p :| o in Owners(rs) && p in Owners(rs) && o != p && Leads(rs, o) && Leads(rs, p);
      assert Tables(rs, o) == Tables(rs, intended) && Tables(rs, p) == Tables(rs, intended);
    }
    forall o <- Owners(rs) | o != intended && Tables(rs, o) == Tables(rs, intended) ensures Tied(rs) {
      assert Leads(rs, o) && Leads(rs, intended);
    }
  }

  method CollectMissing(r: Row) returns (missing: seq<string>)
    ensures missing == Missing(r) && (missing == [] <==> FullDml(r))
  {
    missing := [];
    if !r.sel { missing := missing + ["SELECT"]; }
    if !r.ins { missing := missing + ["INSERT"]; }
    if !r.upd { missing := missing + ["UPDATE"]; }
    if !r.del { missing := missing + ["DELETE"]; }
  }

  method VerifySchema(rs: seq<Row>) returns (drifts: seq<Drift>)
    ensures drifts == SchemaReport(rs)
  {
    drifts := [];
    if rs == [] { return; }
    var counts := CountOwners(rs);
    var intended, max := PickOwner(rs, counts);
    var tied := IsTied(rs, counts, intended, max);
    IntendedIsUnique(rs, intended, IntendedOwner(rs));
    for n := 0 to |rs|
      invariant drifts == Reports(rs[..n], intended, tied)
    {
      assert rs[..n + 1][..n] == rs[..n];
      var missing := CollectMissing(rs[n]);
      if tied || rs[n].owner != intended || |missing| > 0 {
        drifts := drifts + [Drift(rs[n].schema, rs[n].table, rs[n].owner, intended, missing, tied)];
      }
    }
    assert rs[..|rs|] == rs;
  }

  method GroupBySchema(rows: seq<Row>) returns (bySchema: map<string, seq<Row>>)
    ensures forall s :: (s in bySchema <==> OfSchema(rows, s) != []) && (s in bySchema ==> bySchema[s] == OfSchema(rows, s))
  {
    bySchema := map[];
    for n := 0 to |rows|
      invariant forall s :: s in bySchema <==> OfSchema(rows[..n], s) != []
      invariant forall s <- bySchema :: bySchema[s] == OfSchema(rows[..n], s)
    {
      assert rows[..n + 1][..n] == rows[..n];
      var r := rows[n];
      bySchema := bySchema[r.schema := (if r.schema in bySchema then bySchema[r.schema] else []) + [r]];
    }
    assert rows[..|rows|] == rows;
  }

  method VerifySchemas(rows: seq<Row>, schemas: seq<string>) returns (drifts: seq<Drift>)
    ensures drifts == FullReport(rows, schemas)
  {
    drifts := [];
    var bySchema := GroupBySchema(rows);
    for n := 0 to |schemas|
      invariant drifts == FullReport(rows, schemas[..n])
    {
      assert schemas[..n + 1][..n] == schemas[..n];
      if schemas[n] in bySchema {
        var more := VerifySchema(bySchema[schemas[n]]);
        drifts := drifts + more;
      }
    }
    assert schemas[..|schemas|] == schemas;
  }

  /** The whole check: its report is empty exactly when every managed schema that is present is healthy. */
  method Verify(rows: seq<Row>) returns (drifts: seq<Drift>)
    ensures drifts == FullReport(rows, ["auth", "coord", "discussion", "scm"])
    ensures drifts == [] <==> AllHealthy(rows, ["auth", "coord", "discussion", "scm"])
  {
    drifts := VerifySchemas(rows, MANAGED);
    NoDriftIff(rows, MANAGED);
  }

  // ---------- what the report means ----------

  /** The choice is a function of the tables alone, so the map's order never shows. */
  lemma IntendedIsUnique(rs: seq<Row>, o: string, p: string)
    requires Intended(rs, o) && Intended(rs, p)
    ensures o == p
  {
    NoWorseIsTotalOrder(rs, o, p, o);
  }

  /** A healthy schema: one owner, and full DML on every table. */
  ghost predicate Healthy(rs: seq<Row>) {
    && (forall r <- rs :: FullDml(r))
    && (forall r, q | r in rs && q in rs :: r.owner == q.owner)
  }

  lemma {:induction false} ReportsEmptyIff(rs: seq<Row>, intended: string, tied: bool)
    ensures Reports(rs, intended, tied) == [] <==> forall r <- rs :: !tied && r.owner == intended && FullDml(r)
  {
    if rs != [] {
      ReportsEmptyIff(rs[..|rs| - 1], intended, tied);
      assert rs == rs[..|rs| - 1] + [rs[|rs| - 1]];
    }
  }

  lemma {:induction false} TieReportsAll(rs: seq<Row>, intended: string)
    ensures |Reports(rs, intended, true)| == |rs|
    ensures forall i | 0 <= i < |rs| ::
      Reports(rs, intended, true)[i] == Drift(rs[i].schema, rs[i].table, rs[i].owner, intended, Missing(rs[i]), true)
  {
    if rs != [] {
      TieReportsAll(rs[..|rs| - 1], intended);
    }
  }

  /** A tied schema's report names every table, in order, as ambiguous. */
  lemma TiedReportsEveryTable(rs: seq<Row>)
    requires Tied(rs)
    ensures |SchemaReport(rs)| == |rs|
    ensures forall i | 0 <= i < |rs| ::
      SchemaReport(rs)[i] == Drift(rs[i].schema, rs[i].table, rs[i].owner, IntendedOwner(rs), Missing(rs[i]), true)
  {
    if rs != [] { TieReportsAll(rs, IntendedOwner(rs)); }
  }

  lemma SchemaCleanIff(rs: seq<Row>)
    ensures SchemaReport(rs) == [] <==> Healthy(rs)
  {
    if rs != [] {
      var owner := IntendedOwner(rs);
      ReportsEmptyIff(rs, owner, Tied(rs));
      assert forall r <- rs :: r.owner in Owners(rs);
      assert rs[0] in rs;
      if Healthy(rs) {
        forall o <- Owners(rs) ensures o == owner {
          var r :| r in rs && r.owner == o;
        }
        assert !Tied(rs);
      }
    }
  }

  ghost predicate AllHealthy(rows: seq<Row>, schemas: seq<string>) {
    forall i | 0 <= i < |schemas| :: Healthy(OfSchema(rows, schemas[i]))
  }

  lemma AllHealthyButLast(rows: seq<Row>, schemas: seq<string>)
    requires schemas != []
    ensures AllHealthy(rows, schemas) <==>
      AllHealthy(rows, schemas[..|schemas| - 1]) && Healthy(OfSchema(rows, schemas[|schemas| - 1]))
  {
    var front := schemas[..|schemas| - 1];
    assert forall i | 0 <= i < |front| :: front[i] == schemas[i];
    if AllHealthy(rows, schemas) {
      forall i | 0 <= i < |front| ensures Healthy(OfSchema(rows, front[i])) { assert Healthy(OfSchema(rows, schemas[i])); }
    }
  }

  /** No drift is reported exactly when every managed schema present is healthy. */
  lemma {:induction false} NoDriftIff(rows: seq<Row>, schemas: seq<string>)
    ensures FullReport(rows, schemas) == [] <==> AllHealthy(rows, schemas)
  {
    if schemas != [] {
      var n := |schemas| - 1;
      NoDriftIff(rows, schemas[..n]);
      SchemaCleanIff(OfSchema(rows, schemas[n]));
      AllHealthyButLast(rows, schemas);
    }
  }

  /** Which words are listed, and in which order. */
  lemma MissingWords(r: Row)
    ensures ("SELECT" in Missing(r) <==> !r.sel) && ("INSERT" in Missing(r) <==> !r.ins)
    ensures ("UPDATE" in Missing(r) <==> !r.upd) && ("DELETE" in Missing(r) <==> !r.del)
    ensures |Missing(r)| == (if r.sel then 0 else 1) + (if r.ins then 0 else 1) + (if r.upd then 0 else 1) + (if r.del then 0 else 1)
    ensures !r.sel && !r.ins && !r.upd && !r.del ==> Missing(r) == ["SELECT", "INSERT", "UPDATE", "DELETE"]
  {
    var a, b, c, d := "SELECT", "INSERT", "UPDATE", "DELETE";
    assert a[0] == 'S' && b[0] == 'I' && c[0] == 'U' && d[0] == 'D';
  }

  /** The report's entry for a table. */
  function Entry(r: Row, intended: string): Drift {
    Drift(r.schema, r.table, r.owner, intended, Missing(r), false)
  }

  /**
   Without a tie a schema's report holds exactly the tables whose owner is not the intended one or that lack a
   privilege, as entries of this form and nothing else.
   */
  lemma UntiedReportIff(rs: seq<Row>, d: Drift)
    requires rs != [] && !Tied(rs)
    ensures d in SchemaReport(rs) <==>
      exists i :: 0 <= i < |rs| && d == Entry(rs[i], IntendedOwner(rs)) && (rs[i].owner != IntendedOwner(rs) || !FullDml(rs[i]))
  {
    UntiedReports(rs, IntendedOwner(rs), d);
  }

  lemma {:induction false} UntiedReports(rs: seq<Row>, intended: string, d: Drift)
    ensures d in Reports(rs, intended, false) <==>
      exists i :: 0 <= i < |rs| && d == Entry(rs[i], intended) && (rs[i].owner != intended || !FullDml(rs[i]))
  {
    if rs != [] {
      var n := |rs| - 1;
      UntiedReports(rs[..n], intended, d);
      if i :| 0 <= i < n && d == Entry(rs[..n][i], intended) && (rs[..n][i].owner != intended || !FullDml(rs[..n][i])) {
        assert rs[i] == rs[..n][i];
      }
      if i :| 0 <= i < |rs| && d == Entry(rs[i], intended) && (rs[i].owner != intended || !FullDml(rs[i])) {
        assert i < n ==> rs[..n][i] == rs[i];
      }
    }
  }
}
