/** The update graph worklist: `readUpdateGraph` in cli/commands/updateGraph.js. */
module UpdateGraph {
  import opened Common

  datatype Agent = Agent(repo: string, name: string)

  /** The text under which an agent is remembered as visited. */
  function Key(a: Agent): string { a.repo + "/" + a.name }

  /** `Other` is anything that is not an agent record; `Incomplete` lacks a repository or agent name. */
  datatype RegistryEntry = Other | Incomplete | Enabled(agent: Agent, devel: Option<string>)

  /** `linkInstalls` is `None` when the declarations do not parse; blank enable entries are "". */
  datatype Manifest = Manifest(repos: seq<string>, linkInstalls: Option<seq<string>>, enables: seq<string>)

  /**
   * What the workspace holds. A manifest file that exists but cannot be read is `None`;
   * `unresolvable` are the repositories whose path lookup throws; `resolver` finds the agent
   * behind a bare enabled name.
   */
  datatype World = World(registry: Option<seq<RegistryEntry>>, files: map<Agent, Option<Manifest>>,
                         unresolvable: set<string>, resolver: map<string, Agent>)

  function FirstSeparator(spec: string): (i: nat)
    ensures i <= |spec|
  {
    if spec == "" || spec[0] == ':' || spec[0] == '/' then 0 else 1 + FirstSeparator(spec[1..])
  }

  /** The agent an enable entry of a manifest in `repo` names. */
  function Target(w: World, repo: string, spec: string): Option<Agent> {
    var i := FirstSeparator(spec);
    if 0 < i < |spec| then Some(Agent(spec[..i], spec[i + 1..]))
    else if Agent(repo, spec) in w.files then Some(Agent(repo, spec))
    else if spec in w.resolver then Some(w.resolver[spec])
    else None
  }

  predicate IsSeparator(c: char) { c == ':' || c == '/' }

  predicate Plain(s: string) { forall i | 0 <= i < |s| :: !IsSeparator(s[i]) }

  lemma {:induction false} SeparatorAfterPlain(repo: string, rest: string)
    requires Plain(repo) && (rest == "" || IsSeparator(rest[0]))
    ensures FirstSeparator(repo + rest) == |repo|
    decreases |repo|
  {
    if repo == "" {
      assert repo + rest == rest;
    } else {
      assert (repo + rest)[1..] == repo[1..] + rest;
      SeparatorAfterPlain(repo[1..], rest);
    }
  }

  /** A qualified entry names exactly the repository and the agent on its two sides, wherever it is written. */
  lemma QualifiedTarget(w: World, from: string, repo: string, separator: char, name: string)
    requires repo != "" && Plain(repo) && IsSeparator(separator)
    ensures Target(w, from, repo + [separator] + name) == Some(Agent(repo, name))
  {
    var spec := repo + [separator] + name;
    assert spec == repo + ([separator] + name);
    SeparatorAfterPlain(repo, [separator] + name);
    assert spec[..|repo|] == repo && spec[|repo| + 1..] == name;
  }

  /** A bare entry names the agent beside it if there is one, and otherwise whatever the resolver finds. */
  lemma BareTarget(w: World, from: string, name: string)
    requires Plain(name)
    ensures Agent(from, name) in w.files ==> Target(w, from, name) == Some(Agent(from, name))
    ensures Agent(from, name) !in w.files && name in w.resolver ==> Target(w, from, name) == Some(w.resolver[name])
    ensures Agent(from, name) !in w.files && name !in w.resolver ==> Target(w, from, name).None?
  {
    assert name + "" == name;
    SeparatorAfterPlain(name, "");
  }

  predicate HasManifest(w: World, a: Agent) {
    a.repo !in w.unresolvable && a in w.files && w.files[a].Some?
  }

  function ManifestOf(w: World, a: Agent): Manifest
    requires HasManifest(w, a)
  {
    w.files[a].value
  }

  // -------- Reachability --------

  ghost predicate Enables(w: World, a: Agent, b: Agent) {
    HasManifest(w, a) && exists i | 0 <= i < |ManifestOf(w, a).enables| ::
      ManifestOf(w, a).enables[i] != "" && Target(w, a.repo, ManifestOf(w, a).enables[i]) == Some(b)
  }

  ghost predicate IsRoot(w: World, a: Agent) {
    w.registry.Some? && exists i | 0 <= i < |w.registry.value| ::
      w.registry.value[i].Enabled? && w.registry.value[i].agent == a
  }

  ghost predicate IsPath(w: World, p: seq<Agent>) {
    && p != [] && IsRoot(w, p[0])
    && forall i | 0 < i < |p| :: Enables(w, p[i - 1], p[i])
  }

  ghost predicate Reachable(w: World, a: Agent) {
    exists p :: IsPath(w, p) && p[|p| - 1] == a
  }

  /** No two reachable agents share a key. */
  ghost predicate KeysDistinct(w: World) {
    forall a, b | Reachable(w, a) && Reachable(w, b) && Key(a) == Key(b) :: a == b
  }

  lemma RootReachable(w: World, a: Agent)
    requires IsRoot(w, a)
    ensures Reachable(w, a)
  {
    assert IsPath(w, [a]) && [a][|[a]| - 1] == a;
  }

  lemma EnabledReachable(w: World, a: Agent, b: Agent)
    requires Reachable(w, a) && Enables(w, a, b)
    ensures Reachable(w, b)
  {
    var p :| IsPath(w, p) && p[|p| - 1] == a;
    var q := p + [b];
    forall i | 0 < i < |q| ensures Enables(w, q[i - 1], q[i]) {
      if i < |p| { assert Enables(w, p[i - 1], p[i]); }
    }
    assert IsPath(w, q) && q[|q| - 1] == b;
  }

  // -------- The collected graph --------

  datatype Graph = Graph(determinable: bool, repositories: set<string>, linkInstalls: set<string>)

  function AddRepository(g: Graph, w: World, name: string): Graph {
    if name == "" || name in g.repositories then g
    else g.(repositories := g.repositories + {name}, determinable := g.determinable && name !in w.unresolvable)
  }

  /** The graph can vouch for this agent and everything it declares. */
  ghost predicate AgentClear(w: World, a: Agent) {
    && HasManifest(w, a)
    && ManifestOf(w, a).linkInstalls.Some?
    && forall i | 0 <= i < |ManifestOf(w, a).enables| && ManifestOf(w, a).enables[i] != "" ::
         Target(w, a.repo, ManifestOf(w, a).enables[i]).Some?
  }

  ghost predicate RegistryNames(w: World, n: nat, name: string)
    requires w.registry.Some? && n <= |w.registry.value|
  {
    exists i | 0 <= i < n :: w.registry.value[i].Enabled? &&
      (w.registry.value[i].agent.repo == name || w.registry.value[i].devel == Some(name))
  }

  ghost predicate AgentNames(w: World, a: Agent, name: string) {
    a.repo == name || (HasManifest(w, a) && name in ManifestOf(w, a).repos)
  }

  ghost predicate AgentLinks(w: World, a: Agent, name: string) {
    HasManifest(w, a) && ManifestOf(w, a).linkInstalls.Some? && name in ManifestOf(w, a).linkInstalls.value
  }

  ghost predicate RegistryComplete(w: World, n: nat)
    requires w.registry.Some? && n <= |w.registry.value|
  {
    forall i | 0 <= i < n :: !w.registry.value[i].Incomplete?
  }

  /** The graph is exactly what `n` registry entries and the `done` agents contribute. */
  ghost predicate Collected(w: World, g: Graph, n: nat, done: set<Agent>)
    requires w.registry.Some? && n <= |w.registry.value|
  {
    && (forall name :: name in g.repositories <==>
          name != "" && (RegistryNames(w, n, name) || exists a | a in done :: AgentNames(w, a, name)))
    && (forall name :: name in g.linkInstalls <==> exists a | a in done :: AgentLinks(w, a, name))
    && (g.determinable <==>
          && RegistryComplete(w, n)
          && (forall name | name in g.repositories :: name !in w.unresolvable)
          && (forall a | a in done :: AgentClear(w, a)))
  }

  method AddRepositories(w: World, g0: Graph, names: seq<string>) returns (g: Graph)
    ensures forall name :: name in g.repositories <==> name in g0.repositories || (name != "" && name in names)
    ensures g.linkInstalls == g0.linkInstalls
    ensures g.determinable <==>
        g0.determinable && forall name | name in g.repositories - g0.repositories :: name !in w.unresolvable
  {
    g := g0;
    for i := 0 to |names|
      invariant forall name :: name in g.repositories <==> name in g0.repositories || (name != "" && name in names[..i])
      invariant g.linkInstalls == g0.linkInstalls
      invariant g.determinable <==>
                  g0.determinable && forall name | name in g.repositories - g0.repositories :: name !in w.unresolvable
    {
      g := AddRepository(g, w, names[i]);
    }
  }

  /** The enabled agents of one manifest, in order, and whether every entry was resolved. */
  method EnabledAgents(w: World, a: Agent) returns (targets: seq<Agent>, resolved: bool)
    requires HasManifest(w, a)
    ensures forall b :: b in targets <==> Enables(w, a, b)
    ensures resolved <==> forall i | 0 <= i < |ManifestOf(w, a).enables| && ManifestOf(w, a).enables[i] != "" ::
                            Target(w, a.repo, ManifestOf(w, a).enables[i]).Some?
  {
    var enables := ManifestOf(w, a).enables;
    targets, resolved := [], true;
    for n := 0 to |enables|
      invariant forall b :: b in targets <==>
                  exists i | 0 <= i < n :: enables[i] != "" && Target(w, a.repo, enables[i]) == Some(b)
      invariant resolved <==> forall i | 0 <= i < n && enables[i] != "" :: Target(w, a.repo, enables[i]).Some?
    {
      if enables[n] != "" {
        var t := Target(w, a.repo, enables[n]);
        if t.Some? { targets := targets + [t.value]; } else { resolved := false; }
      }
    }
  }

  lemma CollectedEntry(w: World, g: Graph, n: nat, g': Graph)
    requires w.registry.Some? && n < |w.registry.value| && Collected(w, g, n, {})
    requires var e := w.registry.value[n];
             g' == match e
                   case Other => g
                   case Incomplete => g.(determinable := false)
                   case Enabled(a, devel) =>
                     var g1 := AddRepository(g, w, a.repo);
                     if devel.Some? then AddRepository(g1, w, devel.value) else g1
    ensures Collected(w, g', n + 1, {})
  {
    var e := w.registry.value[n];
    assert RegistryComplete(w, n + 1) <==> RegistryComplete(w, n) && !e.Incomplete?;
    forall name
      ensures RegistryNames(w, n + 1, name) <==>
              RegistryNames(w, n, name) || (e.Enabled? && (e.agent.repo == name || e.devel == Some(name)))
    {
    }
  }

  /** The first loop: repositories and initial agents from the registry. */
  method LoadRegistry(w: World) returns (g: Graph, pending: seq<Agent>)
    requires w.registry.Some?
    ensures Collected(w, g, |w.registry.value|, {})
    ensures forall a :: a in pending <==> IsRoot(w, a)
  {
    g, pending := Graph(true, {}, {}), [];
    for n := 0 to |w.registry.value|
      invariant Collected(w, g, n, {})
      invariant forall a :: a in pending <==>
                  exists i | 0 <= i < n :: w.registry.value[i].Enabled? && w.registry.value[i].agent == a
    {
      ghost var g0 := g;
      match w.registry.value[n]
      case Other =>
      case Incomplete => g := g.(determinable := false);
      case Enabled(a, devel) =>
        g := AddRepository(g, w, a.repo);
        if devel.Some? { g := AddRepository(g, w, devel.value); }
        pending := pending + [a];
      CollectedEntry(w, g0, n, g);
    }
  }

  /** What visiting one agent adds. */
  ghost predicate Adds(w: World, g: Graph, a: Agent, g': Graph) {
    && (forall name :: name in g'.repositories <==> name in g.repositories || (name != "" && AgentNames(w, a, name)))
    && (forall name :: name in g'.linkInstalls <==> name in g.linkInstalls || AgentLinks(w, a, name))
    && (g'.determinable <==>
          && g.determinable
          && (forall name | name in g'.repositories - g.repositories :: name !in w.unresolvable)
          && AgentClear(w, a))
  }

  lemma CollectedAgent(w: World, g: Graph, n: nat, done: set<Agent>, a: Agent, g': Graph)
    requires w.registry.Some? && n <= |w.registry.value| && Collected(w, g, n, done) && Adds(w, g, a, g')
    ensures Collected(w, g', n, done + {a})
  {
    forall name
      ensures (exists b | b in done + {a} :: AgentNames(w, b, name)) <==>
              (exists b | b in done :: AgentNames(w, b, name)) || AgentNames(w, a, name)
      ensures (exists b | b in done + {a} :: AgentLinks(w, b, name)) <==>
              (exists b | b in done :: AgentLinks(w, b, name)) || AgentLinks(w, a, name)
    {
      if AgentNames(w, a, name) || AgentLinks(w, a, name) { assert a in done + {a}; }
    }
  }

  /** One popped agent: its own repository, its manifest's declarations, and the agents it enables. */
  method Visit(w: World, g: Graph, a: Agent) returns (g': Graph, targets: seq<Agent>)
    ensures Adds(w, g, a, g')
    ensures forall b :: b in targets <==> Enables(w, a, b)
    ensures !HasManifest(w, a) ==> targets == []
  {
    g' := AddRepository(g, w, a.repo);
    targets := [];
    if a.repo in w.unresolvable || a !in w.files || w.files[a].None? {
      g' := g'.(determinable := false);
      return;
    }
    var m := w.files[a].value;
    ghost var g1 := g';
    g' := AddRepositories(w, g', m.repos);
    if m.linkInstalls.Some? {
      g' := g'.(linkInstalls := g'.linkInstalls + set name | name in m.linkInstalls.value);
    } else {
      g' := g'.(determinable := false);
    }
    var resolved;
    targets, resolved := EnabledAgents(w, a);
    if !resolved { g' := g'.(determinable := false); }
  }

  lemma {:induction false} ClosedContainsPath(w: World, done: set<Agent>, p: seq<Agent>)
    requires IsPath(w, p)
    requires forall a | IsRoot(w, a) :: a in done
    requires forall a, b | a in done && Enables(w, a, b) :: b in done
    ensures p[|p| - 1] in done
    decreases |p|
  {
    if |p| > 1 {
      var q := p[..|p| - 1];
      forall i | 0 < i < |q| ensures Enables(w, q[i - 1], q[i]) { assert Enables(w, p[i - 1], p[i]); }
      ClosedContainsPath(w, done, q);
      assert Enables(w, p[|p| - 1 - 1], p[|p| - 1]);
    }
  }

  /** The registry names the agent, or a visited agent enables it. */
  ghost predicate Supported(w: World, done: set<Agent>, a: Agent) {
    IsRoot(w, a) || exists b | b in done :: Enables(w, b, a)
  }

  /** Only reachable, supported agents are visited or pending, and a key stands for exactly one visited agent. */
  ghost predicate VisitedSound(w: World, pending: seq<Agent>, visited: set<string>, done: set<Agent>) {
    && (forall a | a in done :: Reachable(w, a) && Key(a) in visited)
    && (forall a | a in pending :: Reachable(w, a))
    && (forall a | a in done || a in pending :: Supported(w, done, a))
    && (forall k | k in visited :: exists a | a in done :: Key(a) == k)
    && (forall a, b | a in done && b in done && Key(a) == Key(b) :: a == b)
  }

  ghost predicate Covers(pending: seq<Agent>, visited: set<string>, a: Agent) {
    a in pending || Key(a) in visited
  }

  /** Pending covers the roots and everything the visited agents enable. */
  ghost predicate Frontier(w: World, pending: seq<Agent>, visited: set<string>, done: set<Agent>) {
    && (forall a | IsRoot(w, a) :: Covers(pending, visited, a))
    && (forall a, b | a in done && Enables(w, a, b) :: Covers(pending, visited, b))
  }

  lemma SoundSkips(w: World, pending: seq<Agent>, visited: set<string>, done: set<Agent>)
    requires VisitedSound(w, pending, visited, done) && Frontier(w, pending, visited, done)
    requires pending != [] && Key(pending[0]) in visited
    ensures VisitedSound(w, pending[1..], visited, done) && Frontier(w, pending[1..], visited, done)
  {
    forall a | Covers(pending, visited, a) ensures Covers(pending[1..], visited, a) {}
  }

  lemma SoundVisits(w: World, pending: seq<Agent>, visited: set<string>, done: set<Agent>, targets: seq<Agent>)
    requires VisitedSound(w, pending, visited, done) && pending != [] && Key(pending[0]) !in visited
    requires forall b | b in targets :: Enables(w, pending[0], b)
    ensures VisitedSound(w, pending[1..] + targets, visited + {Key(pending[0])}, done + {pending[0]})
  {
    PendingStaysReachable(w, pending, targets);
    SupportGrows(w, pending, done, targets);
    KeysStayOwned(visited, done, pending[0]);
    KeysStayUnique(visited, done, pending[0]);
  }

  lemma PendingStaysReachable(w: World, pending: seq<Agent>, targets: seq<Agent>)
    requires pending != [] && forall a | a in pending :: Reachable(w, a)
    requires forall b | b in targets :: Enables(w, pending[0], b)
    ensures forall a | a in pending[1..] + targets :: Reachable(w, a)
  {
    forall a | a in pending[1..] + targets ensures Reachable(w, a) {
      if a in targets { EnabledReachable(w, pending[0], a); } else { assert a in pending; }
    }
  }

  lemma SupportGrows(w: World, pending: seq<Agent>, done: set<Agent>, targets: seq<Agent>)
    requires pending != [] && forall a | a in done || a in pending :: Supported(w, done, a)
    requires forall b | b in targets :: Enables(w, pending[0], b)
    ensures forall a | a in done + {pending[0]} || a in pending[1..] + targets :: Supported(w, done + {pending[0]}, a)
  {
    var more := done + {pending[0]};
    forall a | a in more || a in pending[1..] + targets ensures Supported(w, more, a) {
      if a in targets {
        assert pending[0] in more && Enables(w, pending[0], a);
      } else {
        assert a in done || a in pending;
        if !IsRoot(w, a) {
          var b :| b in done && Enables(w, b, a);
          assert b in more;
        }
      }
    }
  }

  lemma KeysStayOwned(visited: set<string>, done: set<Agent>, a0: Agent)
    requires forall k | k in visited :: exists a | a in done :: Key(a) == k
    ensures forall k | k in visited + {Key(a0)} :: exists a | a in done + {a0} :: Key(a) == k
  {
    forall k | k in visited + {Key(a0)} ensures exists a | a in done + {a0} :: Key(a) == k {
      if k in visited {
        var a :| a in done && Key(a) == k;
        assert a in done + {a0};
      } else {
        assert a0 in done + {a0};
      }
    }
  }

  lemma KeysStayUnique(visited: set<string>, done: set<Agent>, a0: Agent)
    requires Key(a0) !in visited && forall a | a in done :: Key(a) in visited
    requires forall a, b | a in done && b in done && Key(a) == Key(b) :: a == b
    ensures forall a, b | a in done + {a0} && b in done + {a0} && Key(a) == Key(b) :: a == b
  {
  }

  lemma FrontierVisits(w: World, pending: seq<Agent>, visited: set<string>, done: set<Agent>, targets: seq<Agent>)
    requires Frontier(w, pending, visited, done) && pending != []
    requires forall b | Enables(w, pending[0], b) :: b in targets
    ensures Frontier(w, pending[1..] + targets, visited + {Key(pending[0])}, done + {pending[0]})
  {
    var rest := pending[1..] + targets;
    var seen := visited + {Key(pending[0])};
    forall a | Covers(pending, visited, a) ensures Covers(rest, seen, a) {
      if a in pending && a != pending[0] { assert a in pending[1..]; }
    }
  }

  /** One turn of the loop; either one more manifest is behind it or the queue is shorter. */
  method VisitNext(w: World, g: Graph, pending: seq<Agent>, visited: set<string>, done: set<Agent>)
    returns (g': Graph, pending': seq<Agent>, visited': set<string>, done': set<Agent>)
    requires w.registry.Some? && Collected(w, g, |w.registry.value|, done)
    requires VisitedSound(w, pending, visited, done) && Frontier(w, pending, visited, done) && pending != []
    ensures Collected(w, g', |w.registry.value|, done')
    ensures VisitedSound(w, pending', visited', done') && Frontier(w, pending', visited', done')
    ensures w.files.Keys - done' < w.files.Keys - done || (w.files.Keys - done' == w.files.Keys - done
        && |pending'| < |pending|)
  {
    var a := pending[0];
    if Key(a) in visited {
      SoundSkips(w, pending, visited, done);
      return g, pending[1..], visited, done;
    }
    var targets;
    g', targets := Visit(w, g, a);
    CollectedAgent(w, g, |w.registry.value|, done, a, g');
    SoundVisits(w, pending, visited, done, targets);
    FrontierVisits(w, pending, visited, done, targets);
    visited' := visited + {Key(a)};
    pending' := pending[1..] + targets;
    done' := done + {a};
    Progress(w, done, a, targets);
  }

  lemma Progress(w: World, done: set<Agent>, a: Agent, targets: seq<Agent>)
    requires a !in done && (!HasManifest(w, a) ==> targets == [])
    ensures if a in w.files then w.files.Keys - (done + {a}) < w.files.Keys - done
            else w.files.Keys - (done + {a}) == w.files.Keys - done && targets == []
  {
    if a in w.files {
      assert a in w.files.Keys - done && a !in w.files.Keys - (done + {a});
    }
  }

  /**
   * `g` is what the visited agents `done` contribute; they are reachable and supported by one another, one
   * per key, and they are all the reachable ones exactly if no key is shared.
   */
  ghost predicate IsGraphOf(w: World, g: Graph, done: set<Agent>) {
    && (w.registry.None? ==> g == Graph(false, {}, {}) && done == {})
    && (w.registry.Some? ==> Collected(w, g, |w.registry.value|, done))
    && (forall a | a in done :: Reachable(w, a) && Supported(w, done, a))
    && (forall a, b | a in done && b in done && Key(a) == Key(b) :: a == b)
    && ((forall a | Reachable(w, a) :: a in done) <==> KeysDistinct(w))
  }

  /**
   * The whole graph. For every workspace, cyclic or not, the worklist ends; it has visited only
   * reachable agents, each named by the registry or enabled by a visited one, and exactly the
   * reachable ones if and only if no two of them share a key; repositories and link-installs are
   * exactly those of the registry and the visited agents; and the graph calls itself determinable
   * exactly when nothing it met was unclear.
   */
  method ReadUpdateGraph(w: World) returns (g: Graph, done: set<Agent>)
    ensures IsGraphOf(w, g, done)
  {
    done := {};
    if w.registry.None? {
      NothingReachable(w);
      return Graph(false, {}, {}), {};
    }
    var pending;
    g, pending := LoadRegistry(w);
    var visited: set<string> := {};
    forall a | a in pending ensures Reachable(w, a) { RootReachable(w, a); }
    while pending != []
      invariant Collected(w, g, |w.registry.value|, done)
      invariant VisitedSound(w, pending, visited, done) && Frontier(w, pending, visited, done)
      decreases w.files.Keys - done, |pending|
    {
      g, pending, visited, done := VisitNext(w, g, pending, visited, done);
    }
    DoneIsExact(w, visited, done);
  }

  lemma NothingReachable(w: World)
    requires w.registry.None?
    ensures forall a :: !Reachable(w, a)
  {
  }

  lemma DoneIsExact(w: World, visited: set<string>, done: set<Agent>)
    requires VisitedSound(w, [], visited, done) && Frontier(w, [], visited, done)
    ensures (forall a | Reachable(w, a) :: a in done) <==> KeysDistinct(w)
  {
    if KeysDistinct(w) {
      forall a | IsRoot(w, a) ensures a in done {
        RootReachable(w, a);
        assert Covers([], visited, a);
        var b :| b in done && Key(b) == Key(a);
      }
      forall a, b | a in done && Enables(w, a, b) ensures b in done {
        EnabledReachable(w, a, b);
        assert Covers([], visited, b);
        var c :| c in done && Key(c) == Key(b);
      }
      forall a | Reachable(w, a) ensures a in done {
        var p :| IsPath(w, p) && p[|p| - 1] == a;
        ClosedContainsPath(w, done, p);
      }
    }
  }

  predicate SlashFree(s: string) { '/' !in s }

  /** Keys split back uniquely at the first slash when repository names contain none. */
  lemma {:induction false} SlashFreeKeys(a: Agent, b: Agent)
    requires SlashFree(a.repo) && SlashFree(b.repo) && Key(a) == Key(b)
    ensures a == b
  {
    var i, j := |a.repo|, |b.repo|;
    assert Key(a)[i] == '/' && Key(b)[j] == '/';
    assert a.repo == Key(a)[..i] && b.repo == Key(b)[..j];
    assert a.name == Key(a)[i + 1..] && b.name == Key(b)[j + 1..];
  }

  /** So the closure is exact whenever the registry and the resolver use slash-free repository names. */
  lemma SlashFreeWorldIsExact(w: World)
    requires forall a | IsRoot(w, a) :: SlashFree(a.repo)
    requires forall spec | spec in w.resolver :: SlashFree(w.resolver[spec].repo)
    ensures KeysDistinct(w)
  {
    forall a, b | Reachable(w, a) && Reachable(w, b) && Key(a) == Key(b) ensures a == b {
      var p :| IsPath(w, p) && p[|p| - 1] == a;
      var q :| IsPath(w, q) && q[|q| - 1] == b;
      ReachableRepoIsSlashFree(w, p);
      ReachableRepoIsSlashFree(w, q);
      SlashFreeKeys(a, b);
    }
  }

  lemma {:induction false} ReachableRepoIsSlashFree(w: World, p: seq<Agent>)
    requires forall a | IsRoot(w, a) :: SlashFree(a.repo)
    requires forall spec | spec in w.resolver :: SlashFree(w.resolver[spec].repo)
    requires IsPath(w, p)
    ensures SlashFree(p[|p| - 1].repo)
    decreases |p|
  {
    if |p| > 1 {
      var q := p[..|p| - 1];
      forall i | 0 < i < |q| ensures Enables(w, q[i - 1], q[i]) { assert Enables(w, p[i - 1], p[i]); }
      ReachableRepoIsSlashFree(w, q);
      var a, b := p[|p| - 1 - 1], p[|p| - 1];
      assert Enables(w, a, b);
      var i :| 0 <= i < |ManifestOf(w, a).enables| && ManifestOf(w, a).enables[i] != "" &&
               Target(w, a.repo, ManifestOf(w, a).enables[i]) == Some(b);
      PrefixIsSlashFree(ManifestOf(w, a).enables[i]);
    }
  }

  lemma {:induction false} PrefixIsSlashFree(spec: string)
    ensures SlashFree(spec[..FirstSeparator(spec)])
  {
    if spec != "" && spec[0] != ':' && spec[0] != '/' {
      PrefixIsSlashFree(spec[1..]);
      assert spec[..FirstSeparator(spec)] == [spec[0]] + spec[1..][..FirstSeparator(spec[1..])];
    }
  }

  const LEFT := Agent("x/y", "z")
  const RIGHT := Agent("x", "y/z")
  const LEFT_TOOL := Agent("x/y", "tool")
  const RIGHT_TOOL := Agent("x", "tool")

  /**
   * Two registered agents with one key and so, repositories being directories, one manifest file. The bare name it
   * enables means another agent next to each of them, and those two declare different repositories.
   */
  function CollidingWorld(): World {
    var shared := Some(Manifest([], Some([]), ["tool"]));
    var left, right := Some(Manifest(["left"], Some([]), [])), Some(Manifest(["right"], Some([]), []));
    World(Some([Enabled(LEFT, None), Enabled(RIGHT, None)]),
          map[LEFT := shared, RIGHT := shared, LEFT_TOOL := left, Agent("x", "y/tool") := left, RIGHT_TOOL := right],
          {}, map[])
  }

  lemma EnabledInCollidingWorld(a: Agent, b: Agent)
    ensures Enables(CollidingWorld(), a, b) <==> (a == LEFT && b == LEFT_TOOL) || (a == RIGHT && b == RIGHT_TOOL)
  {
    var w := CollidingWorld();
    assert FirstSeparator("tool") == 4 by { SeparatorOfTool(); }
    if a == LEFT || a == RIGHT {
      assert ManifestOf(w, a).enables[0] == "tool";
      assert Target(w, a.repo, "tool") == Some(if a == LEFT then LEFT_TOOL else RIGHT_TOOL);
    }
  }

  lemma SeparatorOfTool()
    ensures FirstSeparator("tool") == 4
  {
    assert "tool"[1..] == "ool" && "ool"[1..] == "ol" && "ol"[1..] == "l" && "l"[1..] == "";
    assert FirstSeparator("l") == 1;
    assert FirstSeparator("ol") == 2;
  }

  lemma CollidingAgents()
    ensures LEFT != RIGHT && Key(LEFT) == Key(RIGHT)
    ensures Reachable(CollidingWorld(), LEFT_TOOL) && Reachable(CollidingWorld(), RIGHT_TOOL)
  {
    var w := CollidingWorld();
    assert Key(LEFT) == "x/y/z" && Key(RIGHT) == "x/y/z";
    assert w.registry.value[0].agent == LEFT && w.registry.value[1].agent == RIGHT;
    RootReachable(w, LEFT);
    RootReachable(w, RIGHT);
    EnabledInCollidingWorld(LEFT, LEFT_TOOL);
    EnabledInCollidingWorld(RIGHT, RIGHT_TOOL);
    EnabledReachable(w, LEFT, LEFT_TOOL);
    EnabledReachable(w, RIGHT, RIGHT_TOOL);
  }

  lemma SupportedInCollidingWorld(done: set<Agent>, a: Agent)
    requires Supported(CollidingWorld(), done, a)
    ensures || a == LEFT || a == RIGHT
            || (a == LEFT_TOOL && LEFT in done) || (a == RIGHT_TOOL && RIGHT in done)
  {
    if b :| b in done && Enables(CollidingWorld(), b, a) { EnabledInCollidingWorld(b, a); }
  }

  lemma MissedRepository(g: Graph, done: set<Agent>, missing: Agent, name: string)
    requires Collected(CollidingWorld(), g, 2, done) && missing !in done
    requires forall a | a in done :: a in {LEFT, RIGHT, LEFT_TOOL, RIGHT_TOOL}
    requires (missing == LEFT_TOOL && name == "left") || (missing == RIGHT_TOOL && name == "right")
    ensures name !in g.repositories
  {
    RegistryIsSilent(name);
    forall a | a in done ensures !AgentNames(CollidingWorld(), a, name) { OneDeclares(a, missing, name); }
  }

  lemma RegistryIsSilent(name: string)
    requires name == "left" || name == "right"
    ensures !RegistryNames(CollidingWorld(), 2, name)
  {
  }

  lemma OneDeclares(a: Agent, owner: Agent, name: string)
    requires a in {LEFT, RIGHT, LEFT_TOOL, RIGHT_TOOL} && a != owner
    requires (owner == LEFT_TOOL && name == "left") || (owner == RIGHT_TOOL && name == "right")
    ensures !AgentNames(CollidingWorld(), a, name)
  {
    assert a.repo != name;
    if a == LEFT || a == RIGHT { assert ManifestOf(CollidingWorld(), a).repos == []; }
  }

  lemma ToolIsClear(a: Agent)
    requires a in {LEFT, RIGHT, LEFT_TOOL, RIGHT_TOOL}
    ensures AgentClear(CollidingWorld(), a)
  {
    SeparatorOfTool();
  }

  lemma CollidingWorldIsClear(g: Graph, done: set<Agent>)
    requires Collected(CollidingWorld(), g, 2, done)
    requires forall a | a in done :: a in {LEFT, RIGHT, LEFT_TOOL, RIGHT_TOOL}
    ensures g.determinable
  {
    var w := CollidingWorld();
    forall a | a in done ensures AgentClear(w, a) { ToolIsClear(a); }
    assert w.registry.value[0] == Enabled(LEFT, None) && w.registry.value[1] == Enabled(RIGHT, None);
  }

  /**
   * Exactness really needs distinct keys: there the worklist gives a graph that calls itself
   * determinable although it misses a reachable agent and the repository that agent declares.
   */
  lemma RegistryAgentsCanCollide(g: Graph, done: set<Agent>)
    requires IsGraphOf(CollidingWorld(), g, done)
    ensures g.determinable
    ensures Reachable(CollidingWorld(), LEFT_TOOL) && Reachable(CollidingWorld(), RIGHT_TOOL)
    ensures || (LEFT_TOOL !in done && "left" !in g.repositories)
            || (RIGHT_TOOL !in done && "right" !in g.repositories)
  {
    CollidingAgents();
    forall a | a in done
      ensures a in {LEFT, RIGHT, LEFT_TOOL, RIGHT_TOOL}
      ensures (a == LEFT_TOOL ==> LEFT in done) && (a == RIGHT_TOOL ==> RIGHT in done)
    {
      SupportedInCollidingWorld(done, a);
    }
    CollidingWorldIsClear(g, done);
    if LEFT in done {
      MissedRepository(g, done, RIGHT_TOOL, "right");
    } else {
      MissedRepository(g, done, LEFT_TOOL, "left");
    }
  }
}
