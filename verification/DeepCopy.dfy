/**
 Generated deep copy of a Run status and the capability manifest in it, on a heap: slices are arrays,
 pointers and maps are cells, structs are values that hold references.
 */
module ManifestCopy {
  import opened Basics

  /** The target of a pointer, or the storage of a map. */
  class Cell<T> {
    var value: T
    constructor (value: T)
      ensures this.value == value
    {
      this.value := value;
    }
  }

  type Slice = array?<string>
  type Bytes = array?<bv8>

  datatype SecretRef = SecretRef(name: string, key: string)
  datatype ObjectRef = ObjectRef(namespace: string, name: string)

  /** The target of a skill's git pointer, itself holding a pointer. */
  class GitSource {
    var repo: string
    var ref: string
    var path: string
    const credential: Cell?<SecretRef>

    constructor (repo: string, ref: string, path: string, credential: Cell?<SecretRef>)
      ensures this.repo == repo && this.ref == ref && this.path == path && this.credential == credential
    {
      this.repo, this.ref, this.path, this.credential := repo, ref, path, credential;
    }
  }

  datatype TokenUsage = TokenUsage(input: int, output: int, total: int)
  datatype InteractionError = InteractionError(code: string, message: string, details: string)
  datatype Condition = Condition(kind: string, status: string, generation: int, at: int, reason: string, message: string)

  /** An element of a slice of structs that hold references. */
  datatype Item =
    | Toolchain(name: string, version: string, image: string, namespace: string, offered: Slice)
    | Endpoint(
        name: string, transport: string, url: string, headers: Cell?<map<string, string>>, command: string, args: Slice,
        image: string, sidecar: bool, allow: Slice, deny: Slice, secret: Cell?<SecretRef>, egress: Cell?<ObjectRef>)
    | Skill(
        namespace: string, name: string, source: string, body: string, git: GitSource?, permissions: Slice,
        credentialType: string)
    | Segment(model: string, secretName: string, tier: string, started: Cell?<int>, ended: Cell?<int>, reason: string)
    | Interaction(
        id: string, kind: string, model: string, at: int, request: Bytes, response: Bytes, usage: Cell?<TokenUsage>,
        duration: int, error: Cell?<InteractionError>)
    | Rule(verbs: Slice, groups: Slice, resources: Slice, resourceNames: Slice, urls: Slice)

  datatype Manifest = Manifest(toolchains: array?<Item>, endpoints: array?<Item>, skills: array?<Item>, hash: string)

  // ---------- the value a reader sees, and the cells it is spread over ----------

  datatype GitView = GitView(repo: string, ref: string, path: string, credential: Option<SecretRef>)

  datatype ItemView =
    | ToolchainView(name: string, version: string, image: string, namespace: string, offered: Option<seq<string>>)
    | EndpointView(
        name: string, transport: string, url: string, headers: Option<map<string, string>>, command: string,
        args: Option<seq<string>>, image: string, sidecar: bool, allow: Option<seq<string>>, deny: Option<seq<string>>,
        secret: Option<SecretRef>, egress: Option<ObjectRef>)
    | SkillView(
        namespace: string, name: string, source: string, body: string, git: Option<GitView>,
        permissions: Option<seq<string>>, credentialType: string)
    | SegmentView(
        model: string, secretName: string, tier: string, started: Option<int>, ended: Option<int>, reason: string)
    | InteractionView(
        id: string, kind: string, model: string, at: int, request: Option<seq<bv8>>, response: Option<seq<bv8>>,
        usage: Option<TokenUsage>, duration: int, error: Option<InteractionError>)
    | RuleView(
        verbs: Option<seq<string>>, groups: Option<seq<string>>, resources: Option<seq<string>>,
        resourceNames: Option<seq<string>>, urls: Option<seq<string>>)

  datatype ManifestView = ManifestView(
    toolchains: Option<seq<ItemView>>, endpoints: Option<seq<ItemView>>, skills: Option<seq<ItemView>>, hash: string)

  ghost function Elements<T>(s: array?<T>): Option<seq<T>>
    reads s
  {
    if s == null then None else Some(s[..])
  }

  ghost function Target<T>(c: Cell?<T>): Option<T>
    reads c
  {
    if c == null then None else Some(c.value)
  }

  ghost function One(o: object?): set<object> { if o == null then {} else {o} }

  ghost function GitCells(g: GitSource?): set<object> {
    if g == null then {} else {g} + One(g.credential)
  }

  ghost function ViewGit(g: GitSource?): Option<GitView>
    reads GitCells(g)
  {
    if g == null then None else Some(GitView(g.repo, g.ref, g.path, Target(g.credential)))
  }

  ghost function Cells(x: Item): set<object> {
    match x
    case Toolchain(_, _, _, _, offered) => One(offered)
    case Endpoint(_, _, _, headers, _, args, _, _, allow, deny, secret, egress) =>
      One(headers) + One(args) + One(allow) + One(deny) + One(secret) + One(egress)
    case Skill(_, _, _, _, git, permissions, _) => GitCells(git) + One(permissions)
    case Segment(_, _, _, started, ended, _) => One(started) + One(ended)
    case Interaction(_, _, _, _, request, response, usage, _, error) =>
      One(request) + One(response) + One(usage) + One(error)
    case Rule(verbs, groups, resources, resourceNames, urls) =>
      One(verbs) + One(groups) + One(resources) + One(resourceNames) + One(urls)
  }

  ghost function View(x: Item): ItemView
    reads Cells(x)
  {
    match x
    case Toolchain(name, version, image, namespace, offered) =>
      ToolchainView(name, version, image, namespace, Elements(offered))
    case Endpoint(name, transport, url, headers, command, args, image, sidecar, allow, deny, secret, egress) =>
      EndpointView(name, transport, url, Target(headers), command, Elements(args), image, sidecar, Elements(allow),
                   Elements(deny), Target(secret), Target(egress))
    case Skill(namespace, name, source, body, git, permissions, credentialType) =>
      SkillView(namespace, name, source, body, ViewGit(git), Elements(permissions), credentialType)
    case Segment(model, secretName, tier, started, ended, reason) =>
      SegmentView(model, secretName, tier, Target(started), Target(ended), reason)
    case Interaction(id, kind, model, at, request, response, usage, duration, error) =>
      InteractionView(id, kind, model, at, Elements(request), Elements(response), Target(usage), duration, Target(error))
    case Rule(verbs, groups, resources, resourceNames, urls) =>
      RuleView(Elements(verbs), Elements(groups), Elements(resources), Elements(resourceNames), Elements(urls))
  }

  /** Everything these structs reach lies in this region of the heap. */
  ghost predicate Within(xs: seq<Item>, region: set<object>) {
    forall i | 0 <= i < |xs| :: Cells(xs[i]) <= region
  }

  ghost function ViewAll(xs: seq<Item>, region: set<object>): (views: seq<ItemView>)
    requires Within(xs, region)
    reads region
  {
    if xs == [] then [] else ViewAll(xs[..|xs| - 1], region) + [View(xs[|xs| - 1])]
  }

  lemma {:induction false} SameInAnyRegion(xs: seq<Item>, a: set<object>, b: set<object>)
    requires Within(xs, a) && Within(xs, b)
    ensures ViewAll(xs, a) == ViewAll(xs, b)
  {
    if xs != [] { SameInAnyRegion(xs[..|xs| - 1], a, b); }
  }

  /** A slice of structs, backing array included, lies in this region. */
  ghost predicate Holds(a: array?<Item>, region: set<object>)
    reads region
  {
    a != null ==> a in region && Within(a[..], region)
  }

  ghost function ViewSlice(a: array?<Item>, region: set<object>): Option<seq<ItemView>>
    requires Holds(a, region)
    reads region
  {
    if a == null then None else Some(ViewAll(a[..], region))
  }

  ghost predicate Owns(m: Manifest, region: set<object>)
    reads region
  {
    Holds(m.toolchains, region) && Holds(m.endpoints, region) && Holds(m.skills, region)
  }

  ghost function ViewManifest(m: Manifest, region: set<object>): ManifestView
    requires Owns(m, region)
    reads region
  {
    ManifestView(ViewSlice(m.toolchains, region), ViewSlice(m.endpoints, region), ViewSlice(m.skills, region), m.hash)
  }

  // ---------- the code ----------

  /** `make` and `copy`: a new backing array with the same elements. */
  method CopySlice<T>(src: array?<T>) returns (out: array?<T>)
    ensures Elements(out) == Elements(src) && fresh(One(out))
  {
    if src == null { return null; }
    out := new T[src.Length](i requires 0 <= i < src.Length reads src => src[i]);
    assert out[..] == src[..];
  }

  method CopyTarget<T>(src: Cell?<T>) returns (out: Cell?<T>)
    ensures Target(out) == Target(src) && fresh(One(out))
  {
    if src == null { return null; }
    out := new Cell(src.value);
  }

  /** The map is rebuilt entry by entry, in whatever order it yields its keys. */
  method CopyMap(src: Cell?<map<string, string>>) returns (out: Cell?<map<string, string>>)
    ensures Target(out) == Target(src) && fresh(One(out))
  {
    if src == null { return null; }
    out := new Cell(map[]);
    var left := src.value.Keys;
    while left != {}
      invariant fresh(out) && left <= src.value.Keys
      invariant out.value == map k | k in src.value && k !in left :: src.value[k]
    {
      var key :| key in left;
      out.value := out.value[key := src.value[key]];
      left := left - {key};
    }
    assert out.value == src.value;
  }

  method CopyGit(src: GitSource?) returns (out: GitSource?)
    ensures ViewGit(out) == ViewGit(src) && fresh(GitCells(out))
  {
    if src == null { return null; }
    var credential := CopyTarget(src.credential);
    out := new GitSource(src.repo, src.ref, src.path, credential);
  }

  method CopyEndpointSlices(x: Item) returns (args: Slice, allow: Slice, deny: Slice)
    requires x.Endpoint?
    ensures Elements(args) == Elements(x.args) && Elements(allow) == Elements(x.allow) && Elements(deny) == Elements(x.deny)
    ensures fresh(One(args) + One(allow) + One(deny))
  {
    args := CopySlice(x.args);
    allow := CopySlice(x.allow);
    deny := CopySlice(x.deny);
  }

  method CopyEndpointRefs(x: Item)
      returns (headers: Cell?<map<string, string>>, secret: Cell?<SecretRef>, egress: Cell?<ObjectRef>)
    requires x.Endpoint?
    ensures Target(headers) == Target(x.headers) && Target(secret) == Target(x.secret) && Target(egress) == Target(x.egress)
    ensures fresh(One(headers) + One(secret) + One(egress))
  {
    headers := CopyMap(x.headers);
    secret := CopyTarget(x.secret);
    egress := CopyTarget(x.egress);
  }

  method CopyEndpoint(x: Item) returns (out: Item)
    requires x.Endpoint?
    ensures out.Endpoint? && View(out) == View(x) && fresh(Cells(out))
  {
    var headers, secret, egress := CopyEndpointRefs(x);
    var args, allow, deny := CopyEndpointSlices(x);
    out := x.(headers := headers, args := args, allow := allow, deny := deny, secret := secret, egress := egress);
  }

  method CopySkill(x: Item) returns (out: Item)
    requires x.Skill?
    ensures out.Skill? && View(out) == View(x) && fresh(Cells(out))
  {
    var git := CopyGit(x.git);
    var permissions := CopySlice(x.permissions);
    out := x.(git := git, permissions := permissions);
  }

  method CopySegment(x: Item) returns (out: Item)
    requires x.Segment?
    ensures out.Segment? && View(out) == View(x) && fresh(Cells(out))
  {
    var started := CopyTarget(x.started);
    var ended := CopyTarget(x.ended);
    out := x.(started := started, ended := ended);
  }

  method CopyInteraction(x: Item) returns (out: Item)
    requires x.Interaction?
    ensures out.Interaction? && View(out) == View(x) && fresh(Cells(out))
  {
    var request := CopySlice(x.request);
    var response := CopySlice(x.response);
    var usage := CopyTarget(x.usage);
    var error := CopyTarget(x.error);
    out := x.(request := request, response := response, usage := usage, error := error);
  }

  method CopyRule(x: Item) returns (out: Item)
    requires x.Rule?
    ensures out.Rule? && View(out) == View(x) && fresh(Cells(out))
  {
    var verbs := CopySlice(x.verbs);
    var groups := CopySlice(x.groups);
    var resources := CopySlice(x.resources);
    var resourceNames := CopySlice(x.resourceNames);
    var urls := CopySlice(x.urls);
    out := Rule(verbs, groups, resources, resourceNames, urls);
  }

  method CopyItem(x: Item) returns (out: Item)
    ensures View(out) == View(x) && fresh(Cells(out))
  {
    if x.Toolchain? {
      var offered := CopySlice(x.offered);
      out := x.(offered := offered);
    }
    else if x.Endpoint? { out := CopyEndpoint(x); }
    else if x.Skill? { out := CopySkill(x); }
    else if x.Segment? { out := CopySegment(x); }
    else if x.Interaction? { out := CopyInteraction(x); }
    else { out := CopyRule(x); }
  }

  /** No two elements reach a common cell, even where the source's did. */
  ghost predicate Separate(xs: seq<Item>) {
    forall i, j | 0 <= i < j < |xs| :: Cells(xs[i]) !! Cells(xs[j])
  }

  method CopyStructs(xs: seq<Item>, ghost region: set<object>) returns (ys: seq<Item>, ghost copied: set<object>)
    requires Within(xs, region)
    ensures fresh(copied) && Within(ys, copied) && ViewAll(ys, copied) == ViewAll(xs, region)
    ensures Separate(ys)
  {
    ys, copied := [], {};
    for n := 0 to |xs|
      invariant |ys| == n && fresh(copied) && Within(ys, copied) && Separate(ys)
      invariant ViewAll(ys, copied) == ViewAll(xs[..n], region)
    {
      assert xs[..n + 1][..n] == xs[..n];
      var y := CopyItem(xs[n]);
      SameInAnyRegion(ys, copied, copied + Cells(y));
      assert (ys + [y])[..n] == ys;
      ys, copied := ys + [y], copied + Cells(y);
    }
    assert xs[..|xs|] == xs;
  }

  method CopyItems(src: array?<Item>, ghost region: set<object>) returns (out: array?<Item>, ghost copied: set<object>)
    requires Holds(src, region)
    ensures fresh(copied) && Holds(out, copied) && ViewSlice(out, copied) == ViewSlice(src, region)
    ensures out != null ==> Separate(out[..])
  {
    if src == null { return null, {}; }
    var ys, cells := CopyStructs(src[..], region);
    out := new Item[|ys|](i requires 0 <= i < |ys| => ys[i]);
    copied := cells + {out};
    assert out[..] == ys;
    SameInAnyRegion(ys, cells, copied);
  }

  lemma SameSliceInLargerRegion(a: array?<Item>, small: set<object>, large: set<object>)
    requires Holds(a, small) && small <= large
    ensures Holds(a, large) && ViewSlice(a, large) == ViewSlice(a, small)
  {
    if a != null { SameInAnyRegion(a[..], small, large); }
  }

  /**
   The copy reads the same as the source and lies in a region of cells that did not exist before, and its
   three slices lie in disjoint parts of it.
   */
  method CopyManifest(src: Manifest, ghost region: set<object>)
      returns (out: Manifest, ghost copied: set<object>, ghost parts: (set<object>, set<object>, set<object>))
    requires Owns(src, region)
    ensures fresh(copied) && copied !! region && Owns(out, copied)
    ensures ViewManifest(out, copied) == ViewManifest(src, region)
    ensures parts.0 !! parts.1 && parts.0 !! parts.2 && parts.1 !! parts.2 && copied == parts.0 + parts.1 + parts.2
    ensures Holds(out.toolchains, parts.0) && Holds(out.endpoints, parts.1) && Holds(out.skills, parts.2)
  {
    var toolchains, a := CopyItems(src.toolchains, region);
    var endpoints, b := CopyItems(src.endpoints, region);
    var skills, c := CopyItems(src.skills, region);
    copied, parts := a + b + c, (a, b, c);
    SameSliceInLargerRegion(toolchains, a, copied);
    SameSliceInLargerRegion(endpoints, b, copied);
    SameSliceInLargerRegion(skills, c, copied);
    out := src.(toolchains := toolchains, endpoints := endpoints, skills := skills);
  }

  /** A nil manifest is copied to nil. */
  method DeepCopy(src: Cell?<Manifest>, ghost region: set<object>) returns (out: Cell?<Manifest>, ghost copied: set<object>)
    requires Points(src, region)
    ensures fresh(copied) && copied !! region && Points(out, copied)
    ensures ViewPointed(out, copied) == ViewPointed(src, region)
  {
    if src == null { return null, {}; }
    var copy, cells, _ := CopyManifest(src.value, region);
    out := new Cell(copy);
    copied := cells + {out};
    LargerRegion(copy, cells, copied);
  }

  /** A pointer to a manifest, target included, lies in this region. */
  ghost predicate Points(m: Cell?<Manifest>, region: set<object>)
    reads region
  {
    m != null ==> m in region && Owns(m.value, region)
  }

  ghost function ViewPointed(m: Cell?<Manifest>, region: set<object>): Option<ManifestView>
    requires Points(m, region)
    reads region
  {
    if m == null then None else Some(ViewManifest(m.value, region))
  }

  lemma LargerRegion(m: Manifest, small: set<object>, large: set<object>)
    requires Owns(m, small) && small <= large
    ensures Owns(m, large) && ViewManifest(m, large) == ViewManifest(m, small)
  {
    SameSliceInLargerRegion(m.toolchains, small, large);
    SameSliceInLargerRegion(m.endpoints, small, large);
    SameSliceInLargerRegion(m.skills, small, large);
  }
}

/** Generated deep copy of a whole Run status. */
module StatusCopy {
  import opened Basics
  import opened ManifestCopy

  datatype Budget = Budget(workItem: Cell?<int>, docs: Cell?<int>, recall: Cell?<int>, artifacts: Cell?<int>)

  datatype Snapshot = Snapshot(
    work: string, goal: string, docs: Slice, artifacts: array?<ObjectRef>, budget: Cell?<Budget>, window: Cell?<int>,
    assembledAt: Cell?<int>)

  datatype Grant = Grant(role: Cell?<ObjectRef>, clusterRole: Cell?<ObjectRef>, toolchains: array?<Item>, rules: array?<Item>)

  datatype Status = Status(
    phase: string, sandbox: Cell?<ObjectRef>, claimedAt: Cell?<int>, conditions: array?<Condition>,
    artifacts: array?<ObjectRef>, segments: array?<Item>, interactions: array?<Item>, usage: Cell?<TokenUsage>,
    traceId: string, snapshot: Cell?<Snapshot>, grant: Cell?<Grant>, manifest: Cell?<Manifest>, generation: int)

  // ---------- what a reader sees, and where it lies ----------

  datatype BudgetView = BudgetView(workItem: Option<int>, docs: Option<int>, recall: Option<int>, artifacts: Option<int>)

  datatype SnapshotView = SnapshotView(
    work: string, goal: string, docs: Option<seq<string>>, artifacts: Option<seq<ObjectRef>>, budget: Option<BudgetView>,
    window: Option<int>, assembledAt: Option<int>)

  datatype GrantView = GrantView(
    role: Option<ObjectRef>, clusterRole: Option<ObjectRef>, toolchains: Option<seq<ItemView>>, rules: Option<seq<ItemView>>)

  datatype StatusView = StatusView(
    phase: string, sandbox: Option<ObjectRef>, claimedAt: Option<int>, conditions: Option<seq<Condition>>,
    artifacts: Option<seq<ObjectRef>>, segments: Option<seq<ItemView>>, interactions: Option<seq<ItemView>>,
    usage: Option<TokenUsage>, traceId: string, snapshot: Option<SnapshotView>, grant: Option<GrantView>,
    manifest: Option<ManifestView>, generation: int)

  ghost predicate BudgetIn(b: Cell?<Budget>, region: set<object>)
    reads region
  {
    b != null ==>
      && b in region
      && One(b.value.workItem) + One(b.value.docs) + One(b.value.recall) + One(b.value.artifacts) <= region
  }

  ghost function ViewBudget(b: Cell?<Budget>, region: set<object>): Option<BudgetView>
    requires BudgetIn(b, region)
    reads region
  {
    if b == null then None
    else Some(BudgetView(Target(b.value.workItem), Target(b.value.docs), Target(b.value.recall), Target(b.value.artifacts)))
  }

  ghost predicate SnapshotIn(p: Cell?<Snapshot>, region: set<object>)
    reads region
  {
    p != null ==>
      && p in region && BudgetIn(p.value.budget, region)
      && One(p.value.docs) + One(p.value.artifacts) + One(p.value.window) + One(p.value.assembledAt) <= region
  }

  ghost function ViewSnapshot(p: Cell?<Snapshot>, region: set<object>): Option<SnapshotView>
    requires SnapshotIn(p, region)
    reads region
  {
    if p == null then None
    else
      var v := p.value;
      Some(SnapshotView(v.work, v.goal, Elements(v.docs), Elements(v.artifacts), ViewBudget(v.budget, region),
                        Target(v.window), Target(v.assembledAt)))
  }

  ghost predicate GrantIn(g: Cell?<Grant>, region: set<object>)
    reads region
  {
    g != null ==>
      && g in region && One(g.value.role) + One(g.value.clusterRole) <= region
      && Holds(g.value.toolchains, region) && Holds(g.value.rules, region)
  }

  ghost function ViewGrant(g: Cell?<Grant>, region: set<object>): Option<GrantView>
    requires GrantIn(g, region)
    reads region
  {
    if g == null then None
    else Some(GrantView(Target(g.value.role), Target(g.value.clusterRole), ViewSlice(g.value.toolchains, region),
                        ViewSlice(g.value.rules, region)))
  }

  /** The cells a status points to directly and that hold no further reference. */
  ghost function FlatCells(s: Status): set<object> {
    One(s.sandbox) + One(s.claimedAt) + One(s.conditions) + One(s.artifacts) + One(s.usage)
  }

  ghost predicate StatusIn(s: Status, region: set<object>)
    reads region
  {
    && FlatCells(s) <= region && Holds(s.segments, region) && Holds(s.interactions, region)
    && SnapshotIn(s.snapshot, region) && GrantIn(s.grant, region) && Points(s.manifest, region)
  }

  ghost function ViewStatus(s: Status, region: set<object>): StatusView
    requires StatusIn(s, region)
    reads region
  {
    StatusView(
      s.phase, Target(s.sandbox), Target(s.claimedAt), Elements(s.conditions), Elements(s.artifacts),
      ViewSlice(s.segments, region), ViewSlice(s.interactions, region), Target(s.usage), s.traceId,
      ViewSnapshot(s.snapshot, region), ViewGrant(s.grant, region), ViewPointed(s.manifest, region), s.generation)
  }

  // ---------- the code ----------

  method CopyBudget(src: Cell?<Budget>, ghost region: set<object>) returns (out: Cell?<Budget>, ghost copied: set<object>)
    requires BudgetIn(src, region)
    ensures fresh(copied) && BudgetIn(out, copied) && ViewBudget(out, copied) == ViewBudget(src, region)
  {
    if src == null { return null, {}; }
    var workItem := CopyTarget(src.value.workItem);
    var docs := CopyTarget(src.value.docs);
    var recall := CopyTarget(src.value.recall);
    var artifacts := CopyTarget(src.value.artifacts);
    out := new Cell(Budget(workItem, docs, recall, artifacts));
    copied := {out} + One(workItem) + One(docs) + One(recall) + One(artifacts);
  }

  method CopySnapshotParts(v: Snapshot)
      returns (docs: Slice, artifacts: array?<ObjectRef>, window: Cell?<int>, assembledAt: Cell?<int>)
    ensures Elements(docs) == Elements(v.docs) && Elements(artifacts) == Elements(v.artifacts)
    ensures Target(window) == Target(v.window) && Target(assembledAt) == Target(v.assembledAt)
    ensures fresh(One(docs) + One(artifacts) + One(window) + One(assembledAt))
  {
    docs := CopySlice(v.docs);
    artifacts := CopySlice(v.artifacts);
    window := CopyTarget(v.window);
    assembledAt := CopyTarget(v.assembledAt);
  }

  method CopySnapshot(src: Cell?<Snapshot>, ghost region: set<object>)
      returns (out: Cell?<Snapshot>, ghost copied: set<object>)
    requires SnapshotIn(src, region)
    ensures fresh(copied) && SnapshotIn(out, copied) && ViewSnapshot(out, copied) == ViewSnapshot(src, region)
  {
    if src == null { return null, {}; }
    var docs, artifacts, window, assembledAt := CopySnapshotParts(src.value);
    var budget, cells := CopyBudget(src.value.budget, region);
    out := new Cell(src.value.(docs := docs, artifacts := artifacts, budget := budget, window := window,
                               assembledAt := assembledAt));
    copied := cells + {out} + One(docs) + One(artifacts) + One(window) + One(assembledAt);
    LargerBudgetRegion(budget, cells, copied);
  }

  lemma LargerBudgetRegion(b: Cell?<Budget>, small: set<object>, large: set<object>)
    requires BudgetIn(b, small) && small <= large
    ensures BudgetIn(b, large) && ViewBudget(b, large) == ViewBudget(b, small)
  {
  }

  /** Two slices of structs, in one region. */
  method CopyTwoSlices(x: array?<Item>, y: array?<Item>, ghost region: set<object>)
      returns (u: array?<Item>, v: array?<Item>, ghost copied: set<object>)
    requires Holds(x, region) && Holds(y, region)
    ensures fresh(copied) && Holds(u, copied) && Holds(v, copied)
    ensures ViewSlice(u, copied) == ViewSlice(x, region) && ViewSlice(v, copied) == ViewSlice(y, region)
  {
    ghost var a, b;
    u, a := CopyItems(x, region);
    v, b := CopyItems(y, region);
    copied := a + b;
    SameSliceInLargerRegion(u, a, copied);
    SameSliceInLargerRegion(v, b, copied);
  }

  method CopyGrant(src: Cell?<Grant>, ghost region: set<object>) returns (out: Cell?<Grant>, ghost copied: set<object>)
    requires GrantIn(src, region)
    ensures fresh(copied) && GrantIn(out, copied) && ViewGrant(out, copied) == ViewGrant(src, region)
  {
    if src == null { return null, {}; }
    var toolchains, rules, cells := CopyTwoSlices(src.value.toolchains, src.value.rules, region);
    var role := CopyTarget(src.value.role);
    var clusterRole := CopyTarget(src.value.clusterRole);
    out := new Cell(Grant(role, clusterRole, toolchains, rules));
    copied := cells + {out} + One(role) + One(clusterRole);
    SameSliceInLargerRegion(toolchains, cells, copied);
    SameSliceInLargerRegion(rules, cells, copied);
  }

  /** The pointers and slices whose targets the generator copies flat. */
  method CopyFlat(src: Status) returns (out: Status)
    ensures fresh(FlatCells(out))
    ensures Target(out.sandbox) == Target(src.sandbox) && Target(out.claimedAt) == Target(src.claimedAt)
    ensures Elements(out.conditions) == Elements(src.conditions) && Elements(out.artifacts) == Elements(src.artifacts)
    ensures Target(out.usage) == Target(src.usage)
    ensures out == src.(sandbox := out.sandbox, claimedAt := out.claimedAt, conditions := out.conditions,
                        artifacts := out.artifacts, usage := out.usage)
  {
    var sandbox := CopyTarget(src.sandbox);
    var claimedAt := CopyTarget(src.claimedAt);
    var conditions := CopySlice(src.conditions);
    var artifacts := CopySlice(src.artifacts);
    var usage := CopyTarget(src.usage);
    out := src.(sandbox := sandbox, claimedAt := claimedAt, conditions := conditions, artifacts := artifacts, usage := usage);
  }

  lemma LargerGrantRegion(g: Cell?<Grant>, small: set<object>, large: set<object>)
    requires GrantIn(g, small) && small <= large
    ensures GrantIn(g, large) && ViewGrant(g, large) == ViewGrant(g, small)
  {
    if g != null {
      SameSliceInLargerRegion(g.value.toolchains, small, large);
      SameSliceInLargerRegion(g.value.rules, small, large);
    }
  }

  lemma LargerPointedRegion(m: Cell?<Manifest>, small: set<object>, large: set<object>)
    requires Points(m, small) && small <= large
    ensures Points(m, large) && ViewPointed(m, large) == ViewPointed(m, small)
  {
    if m != null { LargerRegion(m.value, small, large); }
  }

  lemma LargerSnapshotRegion(p: Cell?<Snapshot>, small: set<object>, large: set<object>)
    requires SnapshotIn(p, small) && small <= large
    ensures SnapshotIn(p, large) && ViewSnapshot(p, large) == ViewSnapshot(p, small)
  {
  }

  /** The pointers to structs that hold references of their own, in one region. */
  method CopyNested(src: Status, ghost region: set<object>)
      returns (snapshot: Cell?<Snapshot>, grant: Cell?<Grant>, manifest: Cell?<Manifest>, ghost copied: set<object>)
    requires SnapshotIn(src.snapshot, region) && GrantIn(src.grant, region) && Points(src.manifest, region)
    ensures fresh(copied) && SnapshotIn(snapshot, copied) && GrantIn(grant, copied) && Points(manifest, copied)
    ensures ViewSnapshot(snapshot, copied) == ViewSnapshot(src.snapshot, region)
    ensures ViewGrant(grant, copied) == ViewGrant(src.grant, region)
    ensures ViewPointed(manifest, copied) == ViewPointed(src.manifest, region)
  {
    ghost var a, b, c;
    snapshot, a := CopySnapshot(src.snapshot, region);
    grant, b := CopyGrant(src.grant, region);
    manifest, c := DeepCopy(src.manifest, region);
    copied := a + b + c;
    LargerSnapshotRegion(snapshot, a, copied);
    LargerGrantRegion(grant, b, copied);
    LargerPointedRegion(manifest, c, copied);
  }

  /** The status without its pointers to nested structs. */
  function Head(s: Status): Status { s.(snapshot := null, grant := null, manifest := null) }

  method CopyHead(src: Status, ghost region: set<object>) returns (out: Status, ghost copied: set<object>)
    requires StatusIn(Head(src), region)
    ensures fresh(copied) && out == Head(out) && StatusIn(out, copied)
    ensures ViewStatus(out, copied) == ViewStatus(Head(src), region)
  {
    var segments, interactions, cells := CopyTwoSlices(src.segments, src.interactions, region);
    out := CopyFlat(src);
    out := Head(out).(segments := segments, interactions := interactions);
    copied := FlatCells(out) + cells;
    SameSliceInLargerRegion(segments, cells, copied);
    SameSliceInLargerRegion(interactions, cells, copied);
  }

  /** A status lies where its head and its nested structs lie, and reads as they do. */
  lemma HeadAndNested(s: Status, head: set<object>, nested: set<object>, all: set<object>)
    requires StatusIn(Head(s), head) && head + nested <= all
    requires SnapshotIn(s.snapshot, nested) && GrantIn(s.grant, nested) && Points(s.manifest, nested)
    ensures StatusIn(s, all)
    ensures ViewStatus(s, all) == ViewStatus(Head(s), head).(
      snapshot := ViewSnapshot(s.snapshot, nested), grant := ViewGrant(s.grant, nested),
      manifest := ViewPointed(s.manifest, nested))
  {
    SameSliceInLargerRegion(s.segments, head, all);
    SameSliceInLargerRegion(s.interactions, head, all);
    LargerSnapshotRegion(s.snapshot, nested, all);
    LargerGrantRegion(s.grant, nested, all);
    LargerPointedRegion(s.manifest, nested, all);
  }

  /** Copy the nested structs, while a head copied before keeps reading the same. */
  method CopyNestedBeside(head: Status, ghost cells: set<object>, src: Status, ghost region: set<object>)
      returns (snapshot: Cell?<Snapshot>, grant: Cell?<Grant>, manifest: Cell?<Manifest>, ghost nested: set<object>)
    requires StatusIn(src, region) && StatusIn(head, cells)
    ensures StatusIn(src, region) && StatusIn(head, cells)
    ensures ViewStatus(head, cells) == old(ViewStatus(head, cells))
    ensures ViewStatus(Head(src), region) == old(ViewStatus(Head(src), region))
    ensures fresh(nested) && SnapshotIn(snapshot, nested) && GrantIn(grant, nested) && Points(manifest, nested)
    ensures ViewSnapshot(snapshot, nested) == ViewSnapshot(src.snapshot, region)
    ensures ViewGrant(grant, nested) == ViewGrant(src.grant, region)
    ensures ViewPointed(manifest, nested) == ViewPointed(src.manifest, region)
  {
    snapshot, grant, manifest, nested := CopyNested(src, region);
    assert unchanged(cells) && unchanged(region);
  }

  /** Add the nested structs to a copied head. */
  method AddNested(head: Status, ghost cells: set<object>, src: Status, ghost region: set<object>)
      returns (out: Status, ghost copied: set<object>)
    requires StatusIn(src, region) && head == Head(head) && StatusIn(head, cells)
    requires ViewStatus(head, cells) == ViewStatus(Head(src), region)
    ensures fresh(copied - cells) && copied >= cells && StatusIn(out, copied)
    ensures ViewStatus(out, copied) == ViewStatus(src, region)
  {
    var snapshot, grant, manifest, nested := CopyNestedBeside(head, cells, src, region);
    out := head.(snapshot := snapshot, grant := grant, manifest := manifest);
    assert Head(out) == head;
    copied := cells + nested;
    SameAsSource(out, cells, nested, copied, src, region);
  }

  /** The copy of a status of any size reads the same, on cells none of which existed before. */
  method CopyStatus(src: Status, ghost region: set<object>) returns (out: Status, ghost copied: set<object>)
    requires StatusIn(src, region)
    ensures fresh(copied) && copied !! region && StatusIn(out, copied)
    ensures ViewStatus(out, copied) == ViewStatus(src, region)
  {
    var head, cells := CopyHead(src, region);
    out, copied := AddNested(head, cells, src, region);
  }

  lemma SameAsSource(
    out: Status, head: set<object>, nested: set<object>, all: set<object>, src: Status, region: set<object>
  )
    requires StatusIn(Head(out), head) && head + nested <= all && StatusIn(src, region)
    requires SnapshotIn(out.snapshot, nested) && GrantIn(out.grant, nested) && Points(out.manifest, nested)
    requires ViewStatus(Head(out), head) == ViewStatus(Head(src), region)
    requires ViewSnapshot(out.snapshot, nested) == ViewSnapshot(src.snapshot, region)
    requires ViewGrant(out.grant, nested) == ViewGrant(src.grant, region)
    requires ViewPointed(out.manifest, nested) == ViewPointed(src.manifest, region)
    ensures StatusIn(out, all) && ViewStatus(out, all) == ViewStatus(src, region)
  {
    HeadAndNested(out, head, nested, all);
    HeadAndNested(src, region, region, region);
  }

  // ---------- what the copy is for ----------

  /** Whatever is written outside a status's region between two moments, the status reads the same. */
  twostate lemma OutsideWritesAreInvisible(s: Status, region: set<object>)
    requires old(StatusIn(s, region)) && unchanged(region)
    ensures StatusIn(s, region) && ViewStatus(s, region) == old(ViewStatus(s, region))
  {
  }

  /** A caller that copies and then overwrites cells of its copy: the original reads as before. */
  method EditCopy(src: Status, ghost region: set<object>, usage: TokenUsage, i: nat, item: Item) returns (out: Status)
    requires StatusIn(src, region)
    ensures StatusIn(src, region) && ViewStatus(src, region) == old(ViewStatus(src, region))
  {
    ghost var copied;
    out, copied := CopyStatus(src, region);
    Overwrite(out, copied, usage, i, item);
  }

  /** The other way round: a caller that copies and then overwrites the original keeps an intact copy. */
  method EditOriginal(src: Status, ghost region: set<object>, usage: TokenUsage, i: nat, item: Item)
      returns (out: Status, ghost copied: set<object>)
    requires StatusIn(src, region)
    modifies region
    ensures StatusIn(out, copied) && ViewStatus(out, copied) == old(ViewStatus(src, region))
  {
    out, copied := CopyStatus(src, region);
    Overwrite(src, region, usage, i, item);
  }

  /** Writes through a pointer, into a slice of structs, and into a slice inside the nested manifest. */
  method Overwrite(s: Status, ghost region: set<object>, usage: TokenUsage, i: nat, item: Item)
    requires StatusIn(s, region)
    modifies region
    ensures s.usage != null ==> s.usage.value == usage
  {
    if s.manifest != null && s.manifest.value.skills != null && i < s.manifest.value.skills.Length {
      s.manifest.value.skills[i] := item;
    }
    if s.interactions != null && i < s.interactions.Length {
      s.interactions[i] := item;
    }
    if s.usage != null { s.usage.value := usage; }
  }
}
