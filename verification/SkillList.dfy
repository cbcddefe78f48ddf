/** Lists of names carried through environment variables: comma join, and the tolerant split that undoes it. */
module SkillList {
  import opened Basics

  /** Unicode white space, as unicode.IsSpace has it. */
  predicate IsSpace(c: char) {
    || '\t' <= c <= '\r' || c == ' ' || c == '\U{0085}' || c == '\U{00A0}' || c == '\U{1680}'
    || '\U{2000}' <= c <= '\U{200A}' || c == '\U{2028}' || c == '\U{2029}' || c == '\U{202F}'
    || c == '\U{205F}' || c == '\U{3000}'
  }

  function TrimLeft(s: string): string {
    if s != "" && IsSpace(s[0]) then TrimLeft(s[1..]) else s
  }

  function TrimRight(s: string): string {
    if s != "" && IsSpace(s[|s| - 1]) then TrimRight(s[..|s| - 1]) else s
  }

  function Trim(s: string): string { TrimRight(TrimLeft(s)) }

  function Split(s: string): (parts: seq<string>)
    ensures parts != []
  {
    if s == "" then [""]
    else if s[0] == ',' then [""] + Split(s[1..])
    else
      var rest := Split(s[1..]);
      [[s[0]] + rest[0]] + rest[1..]
  }

  /** The trimmed parts that are not blank. */
  function Kept(parts: seq<string>): seq<string> {
    if parts == [] then []
    else
      var front, p := Kept(parts[..|parts| - 1]), Trim(parts[|parts| - 1]);
      if p == "" then front else front + [p]
  }

  function Fields(s: string): seq<string> { Kept(Split(s)) }

  /** A name that survives the trip: not empty, no blank at either end, no comma. */
  predicate Proper(x: string) {
    x != "" && !IsSpace(x[0]) && !IsSpace(x[|x| - 1]) && ',' !in x
  }

  // ---------- the code ----------

  method SplitList(s: string) returns (out: seq<string>)
    ensures out == Fields(s)
    ensures forall x <- out :: Proper(x)
  {
    out := [];
    FieldsAreProper(s);
    if Trim(s) == "" {
      BlankHasNoFields(s);
      return;
    }
    var parts := Split(s);
    for n := 0 to |parts|
      invariant out == Kept(parts[..n])
    {
      assert parts[..n + 1][..n] == parts[..n];
      var p := Trim(parts[n]);
      if p != "" { out := out + [p]; }
    }
    assert parts[..|parts|] == parts;
  }

  // ---------- trimming ----------

  predicate Blank(s: string) { forall i | 0 <= i < |s| :: IsSpace(s[i]) }

  lemma {:induction false} TrimLeftIsSuffix(s: string) returns (i: nat)
    ensures i <= |s| && TrimLeft(s) == s[i..] && Blank(s[..i])
    ensures i < |s| ==> !IsSpace(s[i])
  {
    i := 0;
    if s != "" && IsSpace(s[0]) {
      var k := TrimLeftIsSuffix(s[1..]);
      i := k + 1;
      assert s[..i] == [s[0]] + s[1..][..k];
    }
  }

  lemma {:induction false} TrimRightIsPrefix(s: string) returns (j: nat)
    ensures j <= |s| && TrimRight(s) == s[..j] && Blank(s[j..])
    ensures j > 0 ==> !IsSpace(s[j - 1])
  {
    j := |s|;
    if s != "" && IsSpace(s[|s| - 1]) {
      j := TrimRightIsPrefix(s[..|s| - 1]);
      assert s[j..] == s[..|s| - 1][j..] + [s[|s| - 1]];
    }
  }

  /** Trimming leaves nothing, or a stretch of the text whose ends are not blank. */
  lemma TrimIsInner(s: string) returns (i: nat, j: nat)
    ensures i <= j <= |s| && Trim(s) == s[i..j] && Blank(s[..i]) && Blank(s[j..])
    ensures i < j ==> !IsSpace(s[i]) && !IsSpace(s[j - 1])
  {
    i := TrimLeftIsSuffix(s);
    var n := TrimRightIsPrefix(s[i..]);
    j := i + n;
    assert s[i..][..n] == s[i..j] && s[i..][n..] == s[j..];
  }

  lemma TrimmedCommaFree(s: string)
    requires ',' !in s
    ensures Trim(s) == "" || Proper(Trim(s))
  {
    var i, j := TrimIsInner(s);
    assert forall k | 0 <= k < j - i :: s[i..j][k] == s[i + k] && s[i + k] in s;
  }

  lemma TrimmedToNothing(s: string)
    requires Trim(s) == ""
    ensures ',' !in s
  {
    var i, j := TrimIsInner(s);
    assert s == s[..i] + s[j..];
  }

  lemma ProperIsTrimmed(x: string)
    requires Proper(x)
    ensures Trim(x) == x
  {
  }

  // ---------- splitting and joining ----------

  lemma {:induction false} SplitHasNoCommas(s: string)
    ensures forall p <- Split(s) :: ',' !in p
  {
    if s != "" { SplitHasNoCommas(s[1..]); }
  }

  lemma {:induction false} SplitCommaFree(x: string)
    requires ',' !in x
    ensures Split(x) == [x]
  {
    if x != "" {
      SplitCommaFree(x[1..]);
      assert x == [x[0]] + x[1..];
    }
  }

  lemma {:induction false} SplitAtFirstComma(x: string, rest: string)
    requires ',' !in x
    ensures Split(x + "," + rest) == [x] + Split(rest)
  {
    var s := x + "," + rest;
    if x == "" {
      assert s[1..] == rest;
    } else {
      SplitAtFirstComma(x[1..], rest);
      assert s[1..] == x[1..] + "," + rest && x == [x[0]] + x[1..];
    }
  }

  lemma {:induction false} SplitOfJoin(xs: seq<string>)
    requires xs != [] && forall x <- xs :: ',' !in x
    ensures Split(Join(xs)) == xs
  {
    if |xs| == 1 {
      SplitCommaFree(xs[0]);
    } else {
      SplitOfJoin(xs[1..]);
      SplitAtFirstComma(xs[0], Join(xs[1..]));
      assert xs == [xs[0]] + xs[1..];
    }
  }

  lemma JoinCons(x: string, rest: seq<string>)
    requires rest != []
    ensures Join([x] + rest) == x + "," + Join(rest)
  {
    assert ([x] + rest)[1..] == rest;
  }

  lemma JoinPushFirst(c: char, x: string, rest: seq<string>)
    ensures Join([[c] + x] + rest) == [c] + Join([x] + rest)
  {
    if rest != [] {
      JoinCons([c] + x, rest);
      JoinCons(x, rest);
      assert ([c] + x) + "," + Join(rest) == [c] + (x + "," + Join(rest));
    }
  }

  /** Splitting loses nothing. */
  lemma {:induction false} JoinOfSplit(s: string)
    ensures Join(Split(s)) == s
  {
    if s != "" {
      JoinOfSplit(s[1..]);
      var rest := Split(s[1..]);
      assert s == [s[0]] + s[1..] && rest == [rest[0]] + rest[1..];
      if s[0] == ',' {
        JoinCons("", rest);
      } else {
        JoinPushFirst(s[0], rest[0], rest[1..]);
      }
    }
  }

  lemma {:induction false} KeptOfProper(xs: seq<string>)
    requires forall x <- xs :: Proper(x)
    ensures Kept(xs) == xs
  {
    if xs != [] {
      KeptOfProper(xs[..|xs| - 1]);
      ProperIsTrimmed(xs[|xs| - 1]);
    }
  }

  lemma {:induction false} KeptIsProper(parts: seq<string>)
    requires forall p <- parts :: ',' !in p
    ensures forall x <- Kept(parts) :: Proper(x)
  {
    if parts != [] {
      KeptIsProper(parts[..|parts| - 1]);
      TrimmedCommaFree(parts[|parts| - 1]);
    }
  }

  lemma FieldsAreProper(s: string)
    ensures forall x <- Fields(s) :: Proper(x)
  {
    SplitHasNoCommas(s);
    KeptIsProper(Split(s));
  }

  lemma BlankHasNoFields(s: string)
    requires Trim(s) == ""
    ensures Fields(s) == []
  {
    TrimmedToNothing(s);
    SplitCommaFree(s);
    assert [s][..0] == [];
  }

  /** Splitting undoes the comma join on exactly the lists of proper names. */
  lemma SplitUndoesJoinIff(xs: seq<string>)
    ensures Fields(Join(xs)) == xs <==> forall x <- xs :: Proper(x)
  {
    FieldsAreProper(Join(xs));
    if xs == [] {
      BlankHasNoFields("");
    } else if forall x <- xs :: Proper(x) {
      SplitOfJoin(xs);
      KeptOfProper(xs);
    }
  }

  /** For every raw text: split, join and split again is split. */
  lemma SplitIsStable(raw: string)
    ensures Fields(Join(Fields(raw))) == Fields(raw)
  {
    FieldsAreProper(raw);
    SplitUndoesJoinIff(Fields(raw));
  }

  // ---------- the gateway's child ----------

  type Env = map<string, string>

  const RUN_PATH: string := "KSQUAD_RUN_PATH"
  const SKILLS: string := "KSQUAD_SKILLS"

  /**
   The extra environment of a standing child. A reader of the stamped variable gets the list back exactly
   when every name is proper; an empty list stamps no variable at all.
   */
  method GatewayStandingEnv(skills: seq<string>) returns (env: Env)
    ensures env.Keys == if skills == [] then {"KSQUAD_RUN_PATH"} else {"KSQUAD_RUN_PATH", "KSQUAD_SKILLS"}
    ensures env["KSQUAD_RUN_PATH"] == "mesh"
    ensures skills != [] ==> (Fields(env["KSQUAD_SKILLS"]) == skills <==> forall x <- skills :: Proper(x))
  {
    assert |RUN_PATH| != |SKILLS|;
    env := map[RUN_PATH := "mesh"];
    if |skills| > 0 {
      env := env[SKILLS := Join(skills)];
    }
    SplitUndoesJoinIff(skills);
  }

  function Getenv(env: Env, name: string): string { if name in env then env[name] else "" }

  /** The skills the child of a gateway with this list parses: the list as handed down, or the pod's own variable. */
  ghost function ChildSkills(pod: Env, skills: seq<string>): seq<string> {
    Fields(if skills == [] then Getenv(pod, SKILLS) else Join(skills))
  }

  /** The whole hop: parse the gateway's variable, stamp the child over the pod's environment, parse there. */
  method HandDownSkills(pod: Env, raw: string) returns (gateway: seq<string>, child: seq<string>)
    ensures gateway == Fields(raw) && child == ChildSkills(pod, gateway)
    ensures child == gateway <==> gateway != [] || Fields(Getenv(pod, SKILLS)) == []
  {
    gateway := SplitList(raw);
    var stamped := GatewayStandingEnv(gateway);
    child := SplitList(Getenv(pod + stamped, SKILLS));
    SplitUndoesJoinIff(gateway);
    assert |RUN_PATH| != |SKILLS|;
  }

  /**
   The child sees exactly the list the gateway parsed, unless that list is empty and the pod's own
   variable names skills of its own, which the child then inherits.
   */
  lemma ChildSeesGatewayListIff(pod: Env, raw: string)
    ensures ChildSkills(pod, Fields(raw)) == Fields(raw)
       <==> Fields(raw) != [] || Fields(Getenv(pod, SKILLS)) == []
  {
    SplitIsStable(raw);
  }

  /** A gateway without skills on a pod whose own variable names one: the child gets that one. */
  lemma InheritedSkillReachesChild()
    ensures Fields("") == [] && ChildSkills(map[SKILLS := "audit"], Fields("")) == ["audit"]
  {
    BlankHasNoFields("");
    SplitCommaFree("audit");
    KeptOfProper(["audit"]);
  }

  // ---------- pinned skills: name=sha lists ----------

  /** Where the first '=' is, or the length. */
  function EqualsAt(s: string): (i: nat)
    ensures i <= |s| && '=' !in s[..i] && (i < |s| ==> s[i] == '=')
  {
    if s == "" || s[0] == '=' then 0
    else
      var i := EqualsAt(s[1..]) + 1;
      assert s[..i] == [s[0]] + s[1..][..i - 1];
      i
  }

  /** What one entry of the list pins, if it is well formed. */
  function PinOf(part: string): Option<(string, string)> {
    var entry := Trim(part);
    var i := EqualsAt(entry);
    if i < |entry| && i > 0 && i + 1 < |entry| then Some((entry[..i], entry[i + 1..])) else None
  }

  /** Later entries win. */
  function Pins(parts: seq<string>): map<string, string> {
    if parts == [] then map[]
    else
      var front, pin := Pins(parts[..|parts| - 1]), PinOf(parts[|parts| - 1]);
      if pin.Some? then front[pin.value.0 := pin.value.1] else front
  }

  /** Entry i is the last well-formed one for this name. */
  ghost predicate LastEntry(parts: seq<string>, name: string, i: nat) {
    && i < |parts| && PinsName(PinOf(parts[i]), name)
    && forall j | i < j < |parts| :: !PinsName(PinOf(parts[j]), name)
  }

  predicate PinsName(pin: Option<(string, string)>, name: string) { pin.Some? && pin.value.0 == name }

  lemma {:induction false} LastEntryPins(parts: seq<string>, name: string, i: nat)
    requires LastEntry(parts, name, i)
    ensures name in Pins(parts) && Pins(parts)[name] == PinOf(parts[i]).value.1
  {
    if i < |parts| - 1 {
      var front := parts[..|parts| - 1];
      assert LastEntry(front, name, i);
      LastEntryPins(front, name, i);
      assert !PinsName(PinOf(parts[|parts| - 1]), name);
    }
  }

  lemma {:induction false} PinnedHasLastEntry(parts: seq<string>, name: string) returns (i: nat)
    requires name in Pins(parts)
    ensures LastEntry(parts, name, i)
  {
    var n := |parts| - 1;
    var last := PinOf(parts[n]);
    i := n;
    if !PinsName(last, name) {
      i := PinnedHasLastEntry(parts[..n], name);
      assert forall j | 0 <= j < n :: parts[..n][j] == parts[j];
    }
  }

  /** The map holds a name exactly when some entry is well formed for it, and then the last such entry's revision. */
  ghost predicate LastWellFormedPins(parts: seq<string>, m: map<string, string>) {
    && (forall name <- m :: exists i: nat :: LastEntry(parts, name, i) && m[name] == PinOf(parts[i]).value.1)
    && (forall name, i: nat | LastEntry(parts, name, i) :: name in m)
  }

  lemma PinsAreLastWellFormed(parts: seq<string>)
    ensures LastWellFormedPins(parts, Pins(parts))
  {
    forall name <- Pins(parts)
      ensures exists i: nat :: LastEntry(parts, name, i) && Pins(parts)[name] == PinOf(parts[i]).value.1
    {
      var i := PinnedHasLastEntry(parts, name);
      LastEntryPins(parts, name, i);
    }
    forall name, i: nat | LastEntry(parts, name, i) ensures name in Pins(parts) {
      LastEntryPins(parts, name, i);
    }
  }

  /** Trim, cut at the first equals sign, and keep the entry if both halves are there. */
  method CutEntry(part: string) returns (pin: Option<(string, string)>)
    ensures pin == PinOf(part)
  {
    var entry := Trim(part);
    var i := EqualsAt(entry);
    pin := None;
    if i < |entry| {
      var name, sha := entry[..i], entry[i + 1..];
      if name != "" && sha != "" { pin := Some((name, sha)); }
    }
  }

  lemma BlankHasNoPins(s: string)
    requires Trim(s) == ""
    ensures Pins(Split(s)) == map[]
  {
    TrimmedToNothing(s);
    SplitCommaFree(s);
    assert [s][..0] == [];
  }

  method ParseSkillSHAs(s: string) returns (m: map<string, string>)
    ensures m == Pins(Split(s)) && LastWellFormedPins(Split(s), m)
  {
    m := map[];
    var parts := Split(s);
    if Trim(s) == "" {
      BlankHasNoPins(s);
    } else {
      for n := 0 to |parts|
        invariant m == Pins(parts[..n])
      {
        assert parts[..n + 1][..n] == parts[..n];
        var pin := CutEntry(parts[n]);
        if pin.Some? { m := m[pin.value.0 := pin.value.1]; }
      }
      assert parts[..|parts|] == parts;
    }
    PinsAreLastWellFormed(parts);
  }

  /** A granted skill; a git-sourced one carries the revision it is pinned to. */
  datatype Granted = Granted(name: string, git: Option<string>)

  predicate Pinned(g: Granted) { g.name != "" && g.git.Some? && g.git.value != "" }

  function RefNames(skills: seq<Granted>): seq<string> {
    if skills == [] then []
    else
      var front, g := RefNames(skills[..|skills| - 1]), skills[|skills| - 1];
      if g.name == "" then front else front + [g.name]
  }

  function PinPairs(skills: seq<Granted>): seq<string> {
    if skills == [] then []
    else
      var front, g := PinPairs(skills[..|skills| - 1]), skills[|skills| - 1];
      if Pinned(g) then front + [g.name + "=" + g.git.value] else front
  }

  /** The revision each name is pinned to; a later grant of the same name wins. */
  function PinnedRevisions(skills: seq<Granted>): map<string, string> {
    if skills == [] then map[]
    else
      var front, g := PinnedRevisions(skills[..|skills| - 1]), skills[|skills| - 1];
      if Pinned(g) then front[g.name := g.git.value] else front
  }

  method GrantedSkillEnv(skills: seq<Granted>) returns (names: string, shas: string)
    ensures names == Join(RefNames(skills)) && shas == Join(PinPairs(skills))
  {
    var refs, pairs := [], [];
    for n := 0 to |skills|
      invariant refs == RefNames(skills[..n]) && pairs == PinPairs(skills[..n])
    {
      assert skills[..n + 1][..n] == skills[..n];
      var g := skills[n];
      if g.name == "" { continue; }
      refs := refs + [g.name];
      if g.git.Some? && g.git.value != "" {
        pairs := pairs + [g.name + "=" + g.git.value];
      }
    }
    assert skills[..|skills|] == skills;
    names, shas := Join(refs), Join(pairs);
  }

  /** A name and a revision that can be told apart again. */
  predicate PinFits(name: string, sha: string) {
    && name != "" && !IsSpace(name[0]) && ',' !in name && '=' !in name
    && sha != "" && !IsSpace(sha[|sha| - 1]) && ',' !in sha
  }

  predicate AllPinsFit(skills: seq<Granted>) {
    forall i | 0 <= i < |skills| && Pinned(skills[i]) :: PinFits(skills[i].name, skills[i].git.value)
  }

  /** This grant's pin is not overridden by a later one. */
  predicate LastPin(skills: seq<Granted>, i: nat) {
    && i < |skills| && Pinned(skills[i])
    && forall j | i < j < |skills| && Pinned(skills[j]) :: skills[j].name != skills[i].name
  }

  predicate DistinctPins(skills: seq<Granted>) {
    forall i: nat | i < |skills| && Pinned(skills[i]) :: LastPin(skills, i)
  }

  lemma PinRoundTrip(name: string, sha: string)
    requires PinFits(name, sha)
    ensures Proper(name + "=" + sha) && PinOf(name + "=" + sha) == Some((name, sha))
  {
    var entry := name + "=" + sha;
    assert entry[0] == name[0] && entry[|entry| - 1] == sha[|sha| - 1];
    ProperIsTrimmed(entry);
    assert entry[..|name|] == name && entry[|name| + 1..] == sha;
    FirstEquals(entry, |name|);
  }

  /** Whatever is parsed fits. */
  lemma ParsedPinFits(part: string)
    requires ',' !in part && PinOf(part).Some?
    ensures PinFits(PinOf(part).value.0, PinOf(part).value.1)
  {
    TrimmedCommaFree(part);
    var entry := Trim(part);
    var i := EqualsAt(entry);
    assert entry[..i][0] == entry[0] && entry[i + 1..][|entry| - i - 2] == entry[|entry| - 1];
    assert forall c | c in entry[..i] :: c in entry;
    assert forall c | c in entry[i + 1..] :: c in entry;
  }

  lemma {:induction false} ParsedPinsFit(parts: seq<string>, name: string)
    requires (forall p <- parts :: ',' !in p) && name in Pins(parts)
    ensures PinFits(name, Pins(parts)[name])
  {
    var last := parts[|parts| - 1];
    if PinOf(last).Some? { ParsedPinFits(last); }
    if PinOf(last).None? || PinOf(last).value.0 != name { ParsedPinsFit(parts[..|parts| - 1], name); }
  }

  lemma {:induction false} LastPinStands(skills: seq<Granted>, i: nat)
    requires LastPin(skills, i)
    ensures skills[i].name in PinnedRevisions(skills) && PinnedRevisions(skills)[skills[i].name] == skills[i].git.value
  {
    if i < |skills| - 1 {
      var front := skills[..|skills| - 1];
      assert LastPin(front, i);
      LastPinStands(front, i);
      assert Pinned(skills[|skills| - 1]) ==> skills[|skills| - 1].name != skills[i].name;
    }
  }

  lemma {:induction false} FirstEquals(s: string, k: nat)
    requires k < |s| && s[k] == '=' && '=' !in s[..k]
    ensures EqualsAt(s) == k
  {
    if k > 0 {
      assert s[0] == s[..k][0] && s[1..][..k - 1] == s[..k][1..];
      FirstEquals(s[1..], k - 1);
    }
  }

  lemma {:induction false} PrintedPins(skills: seq<Granted>)
    requires AllPinsFit(skills)
    ensures forall x <- PinPairs(skills) :: Proper(x)
    ensures Pins(PinPairs(skills)) == PinnedRevisions(skills)
  {
    if skills != [] {
      var front, g := skills[..|skills| - 1], skills[|skills| - 1];
      PrintedPins(front);
      if Pinned(g) {
        PinRoundTrip(g.name, g.git.value);
        assert PinPairs(skills)[..|PinPairs(skills)| - 1] == PinPairs(front);
      }
    }
  }

  /** What the shim reads back of the printed pins. */
  function ReadBack(skills: seq<Granted>): map<string, string> { Pins(Split(Join(PinPairs(skills)))) }

  /**
   What the reconciler renders for a run is what the shim reads back. The names come back in order exactly
   when each is proper. The pins come back if every pin fits, and only if every pin not overridden fits; for
   grants of distinct names, exactly when every pin fits.
   */
  lemma GrantedSkillsRoundTrip(skills: seq<Granted>)
    ensures Fields(Join(RefNames(skills))) == RefNames(skills) <==> forall x <- RefNames(skills) :: Proper(x)
    ensures AllPinsFit(skills) ==> ReadBack(skills) == PinnedRevisions(skills)
    ensures ReadBack(skills) == PinnedRevisions(skills) ==>
      forall i: nat | LastPin(skills, i) :: PinFits(skills[i].name, skills[i].git.value)
    ensures DistinctPins(skills) ==> (ReadBack(skills) == PinnedRevisions(skills) <==> AllPinsFit(skills))
  {
    SplitUndoesJoinIff(RefNames(skills));
    if AllPinsFit(skills) { FittingPinsComeBack(skills); }
    if ReadBack(skills) == PinnedRevisions(skills) {
      forall i: nat | LastPin(skills, i) ensures PinFits(skills[i].name, skills[i].git.value) {
        LastPinStands(skills, i);
        SplitHasNoCommas(Join(PinPairs(skills)));
        ParsedPinsFit(Split(Join(PinPairs(skills))), skills[i].name);
      }
    }
  }

  lemma FittingPinsComeBack(skills: seq<Granted>)
    requires AllPinsFit(skills)
    ensures ReadBack(skills) == PinnedRevisions(skills)
  {
    PrintedPins(skills);
    if PinPairs(skills) == [] {
      SplitCommaFree("");
      assert [""][..0] == [];
    } else {
      SplitOfJoin(PinPairs(skills));
    }
  }

  // ---------- does every grant's own pin arrive ----------

  /** Every pinned grant's own revision is read back under its name. */
  ghost predicate EveryPinArrives(skills: seq<Granted>) {
    forall i | 0 <= i < |skills| && Pinned(skills[i]) ::
      skills[i].name in ReadBack(skills) && ReadBack(skills)[skills[i].name] == skills[i].git.value
  }

  /** Pinned grants of one name agree on the revision. */
  ghost predicate NoClash(skills: seq<Granted>) {
    forall i, j | 0 <= i < j < |skills| && Pinned(skills[i]) && Pinned(skills[j]) && skills[i].name == skills[j].name ::
      skills[i].git == skills[j].git
  }

  lemma {:induction false} LastPinOfName(skills: seq<Granted>, i: nat) returns (j: nat)
    requires i < |skills| && Pinned(skills[i])
    ensures i <= j && LastPin(skills, j) && skills[j].name == skills[i].name
    decreases |skills| - i
  {
    j := i;
    if !LastPin(skills, i) {
      var k: nat :| i < k < |skills| && Pinned(skills[k]) && skills[k].name == skills[i].name;
      j := LastPinOfName(skills, k);
    }
  }

  /**
   Grants are distinct by namespace and name but printed by name alone. So every pin arrives exactly when
   each fits and no two pinned grants of one name disagree.
   */
  lemma EveryPinArrivesIff(skills: seq<Granted>)
    ensures EveryPinArrives(skills) <==> AllPinsFit(skills) && NoClash(skills)
  {
    if AllPinsFit(skills) && NoClash(skills) {
      FittingPinsComeBack(skills);
      forall i: nat | i < |skills| && Pinned(skills[i])
        ensures skills[i].name in ReadBack(skills) && ReadBack(skills)[skills[i].name] == skills[i].git.value
      {
        var j := LastPinOfName(skills, i);
        LastPinStands(skills, j);
        assert i < j ==> skills[i].git == skills[j].git;
      }
    }
    if EveryPinArrives(skills) {
      SplitHasNoCommas(Join(PinPairs(skills)));
      forall i | 0 <= i < |skills| && Pinned(skills[i]) ensures PinFits(skills[i].name, skills[i].git.value) {
        ParsedPinsFit(Split(Join(PinPairs(skills))), skills[i].name);
      }
    }
  }

  /** Skills of one name from two namespaces, pinned apart: only the later one's revision is read back. */
  lemma SameNamedSkillsClash(name: string, a: string, b: string)
    requires PinFits(name, a) && PinFits(name, b) && a != b
    ensures var skills := [Granted(name, Some(a)), Granted(name, Some(b))];
      !EveryPinArrives(skills) && ReadBack(skills) == map[name := b]
  {
    var first, second := Granted(name, Some(a)), Granted(name, Some(b));
    var skills := [first, second];
    assert skills[0] == first && skills[1] == second && !NoClash(skills);
    EveryPinArrivesIff(skills);
    FittingPinsComeBack(skills);
    assert skills[..1] == [first] && [first][..0] == [];
    assert PinnedRevisions([first]) == map[name := a];
    assert PinnedRevisions(skills) == PinnedRevisions([first])[name := b];
  }

  lemma SameNamedSkillLosesItsPin()
    ensures var skills := [Granted("audit", Some("aaa")), Granted("audit", Some("bbb"))];
      !EveryPinArrives(skills) && ReadBack(skills) == map["audit" := "bbb"]
  {
    assert "aaa"[0] != "bbb"[0];
    SameNamedSkillsClash("audit", "aaa", "bbb");
  }

  /** A name with an equals sign is read back as a shorter name with a longer revision. */
  lemma EqualsSignInNameMovesThePin()
    ensures var skills := [Granted("a=b", Some("c"))];
      ReadBack(skills) != PinnedRevisions(skills)
  {
    var skills := [Granted("a=b", Some("c"))];
    assert LastPin(skills, 0) && '=' in skills[0].name;
    GrantedSkillsRoundTrip(skills);
  }

  // ---------- the printed names ----------

  /** How many of the first n grants have a name. */
  function NamedBefore(skills: seq<Granted>, n: nat): nat
    requires n <= |skills|
  {
    if n == 0 then 0 else NamedBefore(skills, n - 1) + if skills[n - 1].name != "" then 1 else 0
  }

  /** The printed list is the names of the grants that have one, each in its place in grant order, however sourced. */
  lemma {:induction false} NamesInGrantOrder(skills: seq<Granted>)
    ensures |RefNames(skills)| == NamedBefore(skills, |skills|)
    ensures forall i | 0 <= i < |skills| && skills[i].name != "" ::
      NamedBefore(skills, i) < |RefNames(skills)| && RefNames(skills)[NamedBefore(skills, i)] == skills[i].name
  {
    if skills != [] {
      var n := |skills| - 1;
      NamesInGrantOrder(skills[..n]);
      forall i: nat | i <= n ensures NamedBefore(skills[..n], i) == NamedBefore(skills, i) { SameCount(skills, n, i); }
    }
  }

  lemma {:induction false} SameCount(skills: seq<Granted>, n: nat, i: nat)
    requires i <= n <= |skills|
    ensures NamedBefore(skills[..n], i) == NamedBefore(skills, i)
  {
    if i > 0 { SameCount(skills, n, i - 1); }
  }

  /** The blanks that are trimmed, one by one: the twenty-five characters with the White_Space property. */
  lemma BlankCharacters(c: char)
    ensures IsSpace(c) <==>
      c in {'\t', '\n', '\U{000B}', '\U{000C}', '\r', ' ', '\U{0085}', '\U{00A0}', '\U{1680}',
            '\U{2000}', '\U{2001}', '\U{2002}', '\U{2003}', '\U{2004}', '\U{2005}', '\U{2006}', '\U{2007}',
            '\U{2008}', '\U{2009}', '\U{200A}', '\U{2028}', '\U{2029}', '\U{202F}', '\U{205F}', '\U{3000}'}
  {
  }
}
