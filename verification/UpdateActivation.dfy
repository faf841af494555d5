/**
 * The update graph and the decision together: what `readUpdateGraph` of cli/commands/updateGraph.js
 * collects is what `applyGraphRequirements` and `decideUpdateStatus` look at.
 */
module UpdateActivation {
  import opened Common
  import UpdateGraph
  import UpdateDecision

  /** Where names lead: the canonical paths of repositories and of link-installs. */
  datatype Places = Places(repository: string -> UpdateDecision.Path, linkInstall: string -> UpdateDecision.Path)

  /** The skill scopes of a graph, which are collected besides the worklist. */
  datatype Skills = Skills(names: set<string>, paths: set<UpdateDecision.Path>, scopes: set<UpdateDecision.Path>,
                           determined: bool)

  /** The sets a decision reads off a collected graph; an unresolvable repository has no path. */
  function ViewOf(w: UpdateGraph.World, g: UpdateGraph.Graph, p: Places, k: Skills): UpdateDecision.GraphView {
    UpdateDecision.GraphView(
      g.repositories, set n | n in g.repositories && n !in w.unresolvable :: p.repository(n),
      g.linkInstalls, set n | n in g.linkInstalls :: p.linkInstall(n),
      k.names, k.paths, k.scopes, g.determinable, k.determined)
  }

  /** `w'` has every registry entry of `w` and otherwise the same workspace. */
  ghost predicate EnablesMore(w: UpdateGraph.World, w': UpdateGraph.World) {
    && w.registry.Some? && w'.registry.Some?
    && (forall e | e in w.registry.value :: e in w'.registry.value)
    && w'.(registry := w.registry) == w
  }

  ghost predicate SkillsGrow(k: Skills, k': Skills) {
    k.names <= k'.names && k.paths <= k'.paths && k.scopes <= k'.scopes && (k'.determined ==> k.determined)
  }

  lemma RootStays(w: UpdateGraph.World, w': UpdateGraph.World, a: UpdateGraph.Agent)
    requires EnablesMore(w, w') && UpdateGraph.IsRoot(w, a)
    ensures UpdateGraph.IsRoot(w', a)
  {
    var i :| 0 <= i < |w.registry.value| && w.registry.value[i].Enabled? && w.registry.value[i].agent == a;
    assert w.registry.value[i] in w'.registry.value;
  }

  lemma EnablesStays(w: UpdateGraph.World, w': UpdateGraph.World, a: UpdateGraph.Agent, b: UpdateGraph.Agent)
    requires EnablesMore(w, w') && UpdateGraph.Enables(w, a, b)
    ensures UpdateGraph.Enables(w', a, b)
  {
    var enables := UpdateGraph.ManifestOf(w, a).enables;
    var i :| 0 <= i < |enables| && enables[i] != "" && UpdateGraph.Target(w, a.repo, enables[i]) == Some(b);
    assert UpdateGraph.ManifestOf(w', a).enables[i] == enables[i];
  }

  lemma ReachableStays(w: UpdateGraph.World, w': UpdateGraph.World, a: UpdateGraph.Agent)
    requires EnablesMore(w, w') && UpdateGraph.Reachable(w, a)
    ensures UpdateGraph.Reachable(w', a)
  {
    var p :| UpdateGraph.IsPath(w, p) && p[|p| - 1] == a;
    RootStays(w, w', p[0]);
    forall i | 0 < i < |p| ensures UpdateGraph.Enables(w', p[i - 1], p[i]) {
      assert UpdateGraph.Enables(w, p[i - 1], p[i]);
      EnablesStays(w, w', p[i - 1], p[i]);
    }
    assert UpdateGraph.IsPath(w', p);
  }

  lemma VisitedGrows(w: UpdateGraph.World, g: UpdateGraph.Graph, done: set<UpdateGraph.Agent>,
                     w': UpdateGraph.World, g': UpdateGraph.Graph, done': set<UpdateGraph.Agent>)
    requires EnablesMore(w, w') && UpdateGraph.KeysDistinct(w')
    requires UpdateGraph.IsGraphOf(w, g, done) && UpdateGraph.IsGraphOf(w', g', done')
    ensures done <= done'
  {
    forall a | a in done ensures a in done' { ReachableStays(w, w', a); }
  }

  lemma RepositoriesGrow(w: UpdateGraph.World, g: UpdateGraph.Graph, done: set<UpdateGraph.Agent>,
                         w': UpdateGraph.World, g': UpdateGraph.Graph, done': set<UpdateGraph.Agent>)
    requires EnablesMore(w, w') && done <= done'
    requires UpdateGraph.Collected(w, g, |w.registry.value|, done)
    requires UpdateGraph.Collected(w', g', |w'.registry.value|, done')
    ensures g.repositories <= g'.repositories && g.linkInstalls <= g'.linkInstalls
  {
    forall name | name in g.repositories ensures name in g'.repositories {
      if UpdateGraph.RegistryNames(w, |w.registry.value|, name) {
        NameStays(w, w', name);
      } else {
        var a :| a in done && UpdateGraph.AgentNames(w, a, name);
        assert a in done' && UpdateGraph.AgentNames(w', a, name);
      }
    }
    forall name | name in g.linkInstalls ensures name in g'.linkInstalls {
      var a :| a in done && UpdateGraph.AgentLinks(w, a, name);
      assert a in done' && UpdateGraph.AgentLinks(w', a, name);
    }
  }

  lemma NameStays(w: UpdateGraph.World, w': UpdateGraph.World, name: string)
    requires EnablesMore(w, w') && UpdateGraph.RegistryNames(w, |w.registry.value|, name)
    ensures UpdateGraph.RegistryNames(w', |w'.registry.value|, name)
  {
    var i :| 0 <= i < |w.registry.value| && w.registry.value[i].Enabled? &&
             (w.registry.value[i].agent.repo == name || w.registry.value[i].devel == Some(name));
    assert w.registry.value[i] in w'.registry.value;
    var j :| 0 <= j < |w'.registry.value| && w'.registry.value[j] == w.registry.value[i];
  }

  lemma DeterminableShrinks(w: UpdateGraph.World, g: UpdateGraph.Graph, done: set<UpdateGraph.Agent>,
                            w': UpdateGraph.World, g': UpdateGraph.Graph, done': set<UpdateGraph.Agent>)
    requires EnablesMore(w, w') && done <= done' && g.repositories <= g'.repositories && g'.determinable
    requires UpdateGraph.Collected(w, g, |w.registry.value|, done)
    requires UpdateGraph.Collected(w', g', |w'.registry.value|, done')
    ensures g.determinable
  {
    forall i | 0 <= i < |w.registry.value| ensures !w.registry.value[i].Incomplete? {
      assert w.registry.value[i] in w'.registry.value;
    }
    forall a | a in done ensures UpdateGraph.AgentClear(w, a) {
      assert UpdateGraph.AgentClear(w', a);
      ClearStays(w, w', a);
    }
  }

  lemma ClearStays(w: UpdateGraph.World, w': UpdateGraph.World, a: UpdateGraph.Agent)
    requires EnablesMore(w, w') && UpdateGraph.AgentClear(w', a)
    ensures UpdateGraph.AgentClear(w, a)
  {
    var enables := UpdateGraph.ManifestOf(w, a).enables;
    forall i | 0 <= i < |enables| && enables[i] != "" ensures UpdateGraph.Target(w, a.repo, enables[i]).Some? {
      assert UpdateGraph.ManifestOf(w', a).enables[i] == enables[i];
      assert UpdateGraph.Target(w', a.repo, enables[i]).Some?;
    }
  }

  /** Enabling more agents yields a graph with every member the smaller one has and no more certainty. */
  lemma EnablingExtendsTheGraph(w: UpdateGraph.World, g: UpdateGraph.Graph, done: set<UpdateGraph.Agent>, k: Skills,
                                w': UpdateGraph.World, g': UpdateGraph.Graph, done': set<UpdateGraph.Agent>, k': Skills,
                                p: Places)
    requires EnablesMore(w, w') && UpdateGraph.KeysDistinct(w') && SkillsGrow(k, k')
    requires UpdateGraph.IsGraphOf(w, g, done) && UpdateGraph.IsGraphOf(w', g', done')
    ensures UpdateDecision.Extends(Some(ViewOf(w, g, p, k)), Some(ViewOf(w', g', p, k')))
  {
    VisitedGrows(w, g, done, w', g', done');
    RepositoriesGrow(w, g, done, w', g', done');
    if g'.determinable { DeterminableShrinks(w, g, done, w', g', done'); }
  }

  /**
   * From registry to activation. Whatever the records and the prior graph are: if activation is allowed
   * with more agents enabled in the proposed workspace, it is allowed without them, so enabling an
   * agent never turns a blocked activation into an allowed one.
   */
  lemma EnablingNeverUnblocks(rs: seq<UpdateDecision.Record>, prior: Option<UpdateDecision.GraphView>,
                              w: UpdateGraph.World, g: UpdateGraph.Graph, done: set<UpdateGraph.Agent>, k: Skills,
                              w': UpdateGraph.World, g': UpdateGraph.Graph, done': set<UpdateGraph.Agent>, k': Skills,
                              p: Places)
    requires EnablesMore(w, w') && UpdateGraph.KeysDistinct(w') && SkillsGrow(k, k')
    requires UpdateGraph.IsGraphOf(w, g, done) && UpdateGraph.IsGraphOf(w', g', done')
    ensures UpdateDecision.Decide(UpdateDecision.Apply(rs, prior, Some(ViewOf(w', g', p, k')))).activationAllowed ==>
              UpdateDecision.Decide(UpdateDecision.Apply(rs, prior, Some(ViewOf(w, g, p, k)))).activationAllowed
  {
    EnablingExtendsTheGraph(w, g, done, k, w', g', done', k', p);
    UpdateDecision.LessKnowledgeNeverActivates(rs, prior, prior, Some(ViewOf(w, g, p, k)), Some(ViewOf(w', g', p, k')));
  }

  // -------- What has to be verified before activation --------

  /** Repository `n` is named by the registry or by a visited agent's own place or manifest. */
  ghost predicate NeedsRepository(w: UpdateGraph.World, done: set<UpdateGraph.Agent>, n: string)
    requires w.registry.Some?
  {
    && n != ""
    && (|| UpdateGraph.RegistryNames(w, |w.registry.value|, n)
        || exists a | a in done :: UpdateGraph.AgentNames(w, a, n))
  }

  ghost predicate NeedsLink(w: UpdateGraph.World, done: set<UpdateGraph.Agent>, n: string) {
    exists a | a in done :: UpdateGraph.AgentLinks(w, a, n)
  }

  ghost predicate NeedsName(w: UpdateGraph.World, done: set<UpdateGraph.Agent>, k: Skills, n: string)
    requires w.registry.Some?
  {
    NeedsRepository(w, done, n) || NeedsLink(w, done, n) || n in k.names
  }

  /** The canonical place of a needed repository or link-install. */
  ghost predicate NeedsPlace(w: UpdateGraph.World, done: set<UpdateGraph.Agent>, p: Places, q: UpdateDecision.Path)
    requires w.registry.Some?
  {
    || (exists n :: NeedsRepository(w, done, n) && n !in w.unresolvable && p.repository(n) == q)
    || (exists n :: NeedsLink(w, done, n) && p.linkInstall(n) == q)
  }

  /** The workspace needs what this record updates. */
  ghost predicate WorldNeeds(w: UpdateGraph.World, done: set<UpdateGraph.Agent>, p: Places, k: Skills,
                             r: UpdateDecision.Record)
    requires w.registry.Some?
  {
    match r.phase
    case RegisteredRepository =>
      || NeedsName(w, done, k, r.id) || (exists n | n in r.aliases :: NeedsName(w, done, k, n))
      || (r.checkout.Some? && (NeedsPlace(w, done, p, r.checkout.value) || r.checkout.value in k.paths))
    case WorkspaceRepository =>
      var place := if r.checkout.Some? then r.checkout.value else r.idPath;
      NeedsPlace(w, done, p, place) || place in k.paths
    case DefaultSkills =>
      && r.target.Some?
      && (|| NeedsRepository(w, done, r.target.value)
          || (r.targetPath.Some? && NeedsPlace(w, done, p, r.targetPath.value)))
    case SkillsManifest =>
      var folder := if r.folder.Some? then r.folder.value else r.idPath;
      || folder in k.scopes
      || exists n :: NeedsRepository(w, done, n) && n !in w.unresolvable && p.repository(n) <= folder
    case OtherPhase(_) => false
  }

  lemma RepositoryMeaning(w: UpdateGraph.World, g: UpdateGraph.Graph, done: set<UpdateGraph.Agent>, n: string)
    requires w.registry.Some? && UpdateGraph.Collected(w, g, |w.registry.value|, done)
    ensures n in g.repositories <==> NeedsRepository(w, done, n)
    ensures n in g.linkInstalls <==> NeedsLink(w, done, n)
  {
  }

  lemma PlaceMeaning(w: UpdateGraph.World, g: UpdateGraph.Graph, done: set<UpdateGraph.Agent>, p: Places, k: Skills,
                     q: UpdateDecision.Path)
    requires w.registry.Some? && UpdateGraph.Collected(w, g, |w.registry.value|, done)
    ensures UpdateDecision.PathRequired(ViewOf(w, g, p, k), Some(q)) <==> NeedsPlace(w, done, p, q)
  {
    forall n ensures n in g.repositories <==> NeedsRepository(w, done, n) { RepositoryMeaning(w, g, done, n); }
    forall n ensures n in g.linkInstalls <==> NeedsLink(w, done, n) { RepositoryMeaning(w, g, done, n); }
  }

  lemma FolderMeaning(w: UpdateGraph.World, g: UpdateGraph.Graph, done: set<UpdateGraph.Agent>, p: Places, k: Skills,
                      folder: UpdateDecision.Path)
    requires w.registry.Some? && UpdateGraph.Collected(w, g, |w.registry.value|, done)
    ensures (exists root | root in ViewOf(w, g, p, k).repositoryPaths :: UpdateDecision.Inside(root, folder)) <==>
            exists n :: NeedsRepository(w, done, n) && n !in w.unresolvable && p.repository(n) <= folder
  {
    forall n ensures n in g.repositories <==> NeedsRepository(w, done, n) { RepositoryMeaning(w, g, done, n); }
    if n :| NeedsRepository(w, done, n) && n !in w.unresolvable && p.repository(n) <= folder {
      assert p.repository(n) in ViewOf(w, g, p, k).repositoryPaths && UpdateDecision.Inside(p.repository(n), folder);
    }
  }

  lemma NameMeaning(w: UpdateGraph.World, g: UpdateGraph.Graph, done: set<UpdateGraph.Agent>, p: Places, k: Skills,
                    r: UpdateDecision.Record)
    requires w.registry.Some? && UpdateGraph.Collected(w, g, |w.registry.value|, done)
    ensures (|| UpdateDecision.Named(r, g.repositories) || UpdateDecision.Named(r, g.linkInstalls)
             || UpdateDecision.Named(r, k.names)) <==>
            NeedsName(w, done, k, r.id) || exists n | n in r.aliases :: NeedsName(w, done, k, n)
  {
    forall n ensures NeedsName(w, done, k, n) <==> n in g.repositories || n in g.linkInstalls || n in k.names {
      RepositoryMeaning(w, g, done, n);
    }
    if n :| n in r.aliases && NeedsName(w, done, k, n) {
      var i :| 0 <= i < |r.aliases| && r.aliases[i] == n;
    }
  }

  /** A record belongs to a collected graph exactly when the workspace needs what it updates. */
  lemma MemberMeansNeeded(w: UpdateGraph.World, g: UpdateGraph.Graph, done: set<UpdateGraph.Agent>, p: Places,
                          k: Skills, r: UpdateDecision.Record)
    requires w.registry.Some? && UpdateGraph.Collected(w, g, |w.registry.value|, done)
    ensures UpdateDecision.Member(ViewOf(w, g, p, k), r, {}) <==> WorldNeeds(w, done, p, k, r)
  {
    match r.phase
    case RegisteredRepository =>
      NameMeaning(w, g, done, p, k, r);
      if r.checkout.Some? { PlaceMeaning(w, g, done, p, k, r.checkout.value); }
    case WorkspaceRepository => PlaceMeaning(w, g, done, p, k, UpdateDecision.CheckoutOrId(r).value);
    case DefaultSkills =>
      if r.target.Some? { RepositoryMeaning(w, g, done, r.target.value); }
      if r.targetPath.Some? { PlaceMeaning(w, g, done, p, k, r.targetPath.value); }
    case SkillsManifest => FolderMeaning(w, g, done, p, k, UpdateDecision.FolderOf(r));
    case OtherPhase(_) =>
  }

  /** A workspace, its collected graph, and what else the decision reads off it. */
  datatype Side = Side(w: UpdateGraph.World, g: UpdateGraph.Graph, done: set<UpdateGraph.Agent>, skills: Skills)

  ghost predicate ValidSide(s: Side) { s.w.registry.Some? && UpdateGraph.IsGraphOf(s.w, s.g, s.done) }

  function SideView(s: Side, p: Places): Option<UpdateDecision.GraphView> { Some(ViewOf(s.w, s.g, p, s.skills)) }

  ghost predicate Determined(s: Side) { s.g.determinable && s.skills.determined }

  /** The graphs decide about this record. */
  predicate IsDecided(r: UpdateDecision.Record) { !r.fixed && !r.phase.OtherPhase? }

  ghost predicate NeededBy(s: Side, p: Places, r: UpdateDecision.Record)
    requires s.w.registry.Some?
  {
    WorldNeeds(s.w, s.done, p, s.skills, r)
  }

  /** The first pass, from the workspaces: needed on either side, undecided, or optional. */
  lemma FirstPassMeaning(prior: Side, proposed: Side, p: Places, r: UpdateDecision.Record)
    requires ValidSide(prior) && ValidSide(proposed) && IsDecided(r)
    ensures UpdateDecision.FirstPass(r, SideView(prior, p), SideView(proposed, p)) ==
            if NeededBy(prior, p, r) || NeededBy(proposed, p, r) then UpdateDecision.Required
            else if Determined(prior) && Determined(proposed) then UpdateDecision.Optional
            else UpdateDecision.Unknown
  {
    MemberMeansNeeded(prior.w, prior.g, prior.done, p, prior.skills, r);
    MemberMeansNeeded(proposed.w, proposed.g, proposed.done, p, proposed.skills, r);
  }

  /** `m` takes its skills from what `r` updates. */
  ghost predicate Feeds(m: UpdateDecision.Record, r: UpdateDecision.Record) {
    || FeedsName(m, r.id) || (exists n | n in r.aliases :: FeedsName(m, n))
    || (r.checkout.Some? && FeedsPlace(m, r.checkout.value))
    || (r.checkout.None? && r.phase.WorkspaceRepository? && FeedsPlace(m, r.idPath))
  }

  ghost predicate FeedsName(m: UpdateDecision.Record, n: string) {
    || (m.phase.SkillsManifest? && (n in m.sources || exists x | x in m.sourceStates :: x.name == Some(n)))
    || (m.phase.DefaultSkills? && m.source == Some(n))
  }

  ghost predicate FeedsPlace(m: UpdateDecision.Record, q: UpdateDecision.Path) {
    || (m.phase.SkillsManifest? && exists x | x in m.sourceStates :: x.checkout == Some(q))
    || (m.phase.DefaultSkills? && m.source.Some? && m.sourceCheckout == Some(q))
  }

  /** Whatever first pass a record got, it asks for its sources unless that was optional. */
  ghost predicate Asks(prior: Side, proposed: Side, p: Places, m: UpdateDecision.Record) {
    !UpdateDecision.FirstPass(m, SideView(prior, p), SideView(proposed, p)).Optional?
  }

  lemma FeedsMeaning(m: UpdateDecision.Record, n: string, q: UpdateDecision.Path)
    ensures UpdateDecision.NamesSource(m, n) <==> FeedsName(m, n)
    ensures UpdateDecision.NamesSourcePath(m, q) <==> FeedsPlace(m, q)
  {
    if x :| x in m.sourceStates && x.name == Some(n) { var i :| 0 <= i < |m.sourceStates| && m.sourceStates[i] == x; }
    if x :| x in m.sourceStates && x.checkout == Some(q) {
      var i :| 0 <= i < |m.sourceStates| && m.sourceStates[i] == x;
    }
  }

  lemma SourceMeaning(rs: seq<UpdateDecision.Record>, prior: Side, proposed: Side, p: Places, n: string,
                      q: UpdateDecision.Path)
    ensures UpdateDecision.SourceNeeded(rs, SideView(prior, p), SideView(proposed, p), n) <==>
            exists m | m in rs :: Asks(prior, proposed, p, m) && FeedsName(m, n)
    ensures UpdateDecision.SourcePathNeeded(rs, SideView(prior, p), SideView(proposed, p), q) <==>
            exists m | m in rs :: Asks(prior, proposed, p, m) && FeedsPlace(m, q)
  {
    forall m ensures (UpdateDecision.NamesSource(m, n) <==> FeedsName(m, n)) &&
                     (UpdateDecision.NamesSourcePath(m, q) <==> FeedsPlace(m, q))
    {
      FeedsMeaning(m, n, q);
    }
    if m :| m in rs && Asks(prior, proposed, p, m) && FeedsName(m, n) { var i :| 0 <= i < |rs| && rs[i] == m; }
    if m :| m in rs && Asks(prior, proposed, p, m) && FeedsPlace(m, q) { var i :| 0 <= i < |rs| && rs[i] == m; }
  }

  lemma PromotionMeaning(rs: seq<UpdateDecision.Record>, prior: Side, proposed: Side, p: Places,
                         r: UpdateDecision.Record)
    ensures UpdateDecision.Promoted(rs, SideView(prior, p), SideView(proposed, p), r) <==>
            && (r.phase.RegisteredRepository? || r.phase.WorkspaceRepository?)
            && exists m | m in rs :: Asks(prior, proposed, p, m) && Feeds(m, r)
  {
    var a, b := SideView(prior, p), SideView(proposed, p);
    forall n ensures UpdateDecision.SourceNeeded(rs, a, b, n) <==>
                     exists m | m in rs :: Asks(prior, proposed, p, m) && FeedsName(m, n)
    {
      SourceMeaning(rs, prior, proposed, p, n, []);
    }
    forall q ensures UpdateDecision.SourcePathNeeded(rs, a, b, q) <==>
                     exists m | m in rs :: Asks(prior, proposed, p, m) && FeedsPlace(m, q)
    {
      SourceMeaning(rs, prior, proposed, p, "", q);
    }
    if m :| m in rs && Asks(prior, proposed, p, m) && Feeds(m, r) && IsRepo(r) {
      if n :| n in r.aliases && FeedsName(m, n) { var i :| 0 <= i < |r.aliases| && r.aliases[i] == n; }
    }
  }

  predicate IsRepo(r: UpdateDecision.Record) { r.phase.RegisteredRepository? || r.phase.WorkspaceRepository? }

  /**
   * Which updates matter, from the workspaces alone: a record the graphs decide about ends up optional exactly
   * when both graphs are determined, neither workspace needs what it updates, and it is no repository that a
   * record which is not optional takes skills from.
   */
  lemma OptionalExactly(rs: seq<UpdateDecision.Record>, prior: Side, proposed: Side, p: Places,
                        r: UpdateDecision.Record)
    requires ValidSide(prior) && ValidSide(proposed) && IsDecided(r)
    ensures UpdateDecision.Closed(rs, SideView(prior, p), SideView(proposed, p), r).Optional? <==>
            && Determined(prior) && Determined(proposed)
            && !NeededBy(prior, p, r) && !NeededBy(proposed, p, r)
            && !(IsRepo(r) && exists m | m in rs :: Asks(prior, proposed, p, m) && Feeds(m, r))
  {
    FirstPassMeaning(prior, proposed, p, r);
    PromotionMeaning(rs, prior, proposed, p, r);
  }

  /**
   * From registry to activation, record by record: an allowed activation has verified every record whose
   * update the enabled agents of either workspace need, every repository their skills come from, and, if
   * a graph is not determined, every record the graphs decide about.
   */
  lemma ActivationVerifiesWhatIsNeeded(rs: seq<UpdateDecision.Record>, prior: Side, proposed: Side, p: Places,
                                       r: UpdateDecision.Record)
    requires ValidSide(prior) && ValidSide(proposed) && r in rs && IsDecided(r)
    requires
      UpdateDecision.Decide(UpdateDecision.Apply(rs, SideView(prior, p), SideView(proposed, p))).activationAllowed
    requires || !Determined(prior) || !Determined(proposed) || NeededBy(prior, p, r) || NeededBy(proposed, p, r)
             || (IsRepo(r) && exists m | m in rs :: Asks(prior, proposed, p, m) && Feeds(m, r))
    ensures UpdateDecision.Verified(r)
  {
    var out := UpdateDecision.Apply(rs, SideView(prior, p), SideView(proposed, p));
    var i :| 0 <= i < |rs| && rs[i] == r;
    OptionalExactly(rs, prior, proposed, p, r);
    UpdateDecision.ActivationMeansVerified(out);
    assert out[i] == r.(required := UpdateDecision.Closed(rs, SideView(prior, p), SideView(proposed, p), r));
  }

  /** One side is enough: what a workspace needs is required, whatever the other graph is or knows. */
  lemma NeededOnOneSide(rs: seq<UpdateDecision.Record>, side: Side, other: Option<UpdateDecision.GraphView>, p: Places,
                        r: UpdateDecision.Record)
    requires ValidSide(side) && NeededBy(side, p, r) && IsDecided(r)
    ensures UpdateDecision.Closed(rs, SideView(side, p), other, r).Required?
    ensures UpdateDecision.Closed(rs, other, SideView(side, p), r).Required?
  {
    MemberMeansNeeded(side.w, side.g, side.done, p, side.skills, r);
  }

  /** The update of a visited agent's own or declared repository has to be verified, on whichever side it is visited. */
  lemma EnabledRepositoryIsVerified(rs: seq<UpdateDecision.Record>, side: Side, other: Option<UpdateDecision.GraphView>,
                                    p: Places, a: UpdateGraph.Agent, n: string, r: UpdateDecision.Record)
    requires ValidSide(side) && a in side.done && UpdateGraph.AgentNames(side.w, a, n) && n != ""
    requires r in rs && !r.fixed
    requires || (r.phase.RegisteredRepository? && (r.id == n || n in r.aliases))
             || (r.phase.WorkspaceRepository? && n !in side.w.unresolvable
                 && (if r.checkout.Some? then r.checkout.value else r.idPath) == p.repository(n))
    ensures UpdateDecision.Decide(UpdateDecision.Apply(rs, SideView(side, p), other)).activationAllowed ==>
              UpdateDecision.Verified(r)
    ensures UpdateDecision.Decide(UpdateDecision.Apply(rs, other, SideView(side, p))).activationAllowed ==>
              UpdateDecision.Verified(r)
  {
    assert NeedsRepository(side.w, side.done, n);
    assert r.phase.RegisteredRepository? ==> NeedsName(side.w, side.done, side.skills, n);
    NeededOnOneSide(rs, side, other, p, r);
    RequiredIsVerified(rs, SideView(side, p), other, r);
    RequiredIsVerified(rs, other, SideView(side, p), r);
  }

  lemma RequiredIsVerified(rs: seq<UpdateDecision.Record>, prior: Option<UpdateDecision.GraphView>,
                           proposed: Option<UpdateDecision.GraphView>, r: UpdateDecision.Record)
    requires r in rs && !UpdateDecision.Closed(rs, prior, proposed, r).Optional?
    ensures UpdateDecision.Decide(UpdateDecision.Apply(rs, prior, proposed)).activationAllowed ==>
              UpdateDecision.Verified(r)
  {
    var out := UpdateDecision.Apply(rs, prior, proposed);
    var i :| 0 <= i < |rs| && rs[i] == r;
    UpdateDecision.ActivationMeansVerified(out);
    assert out[i] == r.(required := UpdateDecision.Closed(rs, prior, proposed, r));
  }

  /** Without one of the graphs every record they would decide about has to be verified. */
  lemma MissingGraphNeedsEverything(rs: seq<UpdateDecision.Record>, prior: Option<UpdateDecision.GraphView>,
                                    proposed: Option<UpdateDecision.GraphView>, r: UpdateDecision.Record)
    requires (prior.None? || proposed.None?) && IsDecided(r) && r in rs
    ensures UpdateDecision.Decide(UpdateDecision.Apply(rs, prior, proposed)).activationAllowed ==>
              UpdateDecision.Verified(r)
  {
    RequiredIsVerified(rs, prior, proposed, r);
  }
}
