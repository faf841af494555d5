/**
 * From operation records to exit status and activation: the requirement closure of
 * cli/commands/updateGraph.js and the decision of cli/commands/updateOutcome.js.
 */
module UpdateDecision {
  import opened Common

  type Name = string

  /** A canonical path as its segments. */
  type Path = seq<nat>

  predicate Inside(root: Path, candidate: Path) { root <= candidate }

  /** `required`: true, false, or null when the graph could not decide. */
  datatype Requirement = Required | Optional | Unknown

  datatype Outcome = Changed | Unchanged | Skipped | Deferred | Failed | Uncertain

  datatype Phase = RegisteredRepository | WorkspaceRepository | DefaultSkills | SkillsManifest | OtherPhase(tag: nat)

  datatype SourceState = SourceState(name: Option<Name>, checkout: Option<Path>)

  /** One operation record, with the details the closure looks at. `idPath` is its identity read as a path. */
  datatype Record = Record(
    phase: Phase, id: Name, idPath: Path, aliases: seq<Name>, checkout: Option<Path>,
    target: Option<Name>, targetPath: Option<Path>, folder: Option<Path>,
    sources: seq<Name>, sourceStates: seq<SourceState>, source: Option<Name>, sourceCheckout: Option<Path>,
    fixed: bool, required: Requirement, outcome: Outcome, attempted: bool)

  datatype GraphView = GraphView(
    repositories: set<Name>, repositoryPaths: set<Path>, linkNames: set<Name>, linkPaths: set<Path>,
    skillNames: set<Name>, skillPaths: set<Path>, scopePaths: set<Path>,
    determinable: bool, scopesDetermined: bool)

  // -------- Membership of one record in one graph --------

  predicate Named(r: Record, names: set<Name>) {
    r.id in names || exists i | 0 <= i < |r.aliases| :: r.aliases[i] in names
  }

  predicate PathRequired(g: GraphView, p: Option<Path>) {
    p.Some? && (p.value in g.repositoryPaths || p.value in g.linkPaths)
  }

  predicate SkillPath(g: GraphView, p: Option<Path>) { p.Some? && p.value in g.skillPaths }

  function CheckoutOrId(r: Record): Option<Path> {
    if r.checkout.None? && r.phase.WorkspaceRepository? then Some(r.idPath) else r.checkout
  }

  function FolderOf(r: Record): Path { if r.folder.Some? then r.folder.value else r.idPath }

  predicate Member(g: GraphView, r: Record, requiredSources: set<Name>) {
    match r.phase
    case RegisteredRepository =>
      || Named(r, g.repositories) || Named(r, g.linkNames) || PathRequired(g, r.checkout)
      || Named(r, g.skillNames) || SkillPath(g, r.checkout) || r.id in requiredSources
    case WorkspaceRepository => PathRequired(g, CheckoutOrId(r)) || SkillPath(g, CheckoutOrId(r))
    case DefaultSkills =>
      r.target.Some? && (r.target.value in g.repositories || PathRequired(g, r.targetPath))
    case SkillsManifest =>
      (exists root | root in g.repositoryPaths :: Inside(root, FolderOf(r))) || FolderOf(r) in g.scopePaths
    case OtherPhase(_) => false
  }

  /** `None` leaves the record to its own phase. */
  function Membership(g: Option<GraphView>, r: Record, requiredSources: set<Name>): Option<Requirement> {
    if g.None? then Some(Unknown)
    else if r.phase.OtherPhase? then None
    else if Member(g.value, r, requiredSources) then Some(Required)
    else if r.phase.SkillsManifest? && !g.value.scopesDetermined then Some(Unknown)
    else if g.value.determinable && g.value.scopesDetermined then Some(Optional)
    else Some(Unknown)
  }

  // -------- The closure --------

  /** The first pass runs before any required skill source is known. */
  function FirstPass(r: Record, prior: Option<GraphView>, proposed: Option<GraphView>): Requirement {
    if r.fixed then r.required
    else
      var a := Membership(prior, r, {});
      var b := Membership(proposed, r, {});
      if a.None? then r.required
      else if a == Some(Required) || b == Some(Required) then Required
      else if a == Some(Unknown) || b == Some(Unknown) then Unknown
      else Optional
  }

  predicate NamesSource(r: Record, n: Name) {
    || (r.phase.SkillsManifest? && (n in r.sources || exists i | 0 <= i < |r.sourceStates| ::
        r.sourceStates[i].name == Some(n)))
    || (r.phase.DefaultSkills? && r.source == Some(n))
  }

  predicate NamesSourcePath(r: Record, p: Path) {
    || (r.phase.SkillsManifest? && exists i | 0 <= i < |r.sourceStates| :: r.sourceStates[i].checkout == Some(p))
    || (r.phase.DefaultSkills? && r.source.Some? && r.sourceCheckout == Some(p))
  }

  /** Some record that is not optional names the source. */
  ghost predicate SourceNeeded(rs: seq<Record>, prior: Option<GraphView>, proposed: Option<GraphView>, n: Name) {
    exists i | 0 <= i < |rs| :: !FirstPass(rs[i], prior, proposed).Optional? && NamesSource(rs[i], n)
  }

  ghost predicate SourcePathNeeded(rs: seq<Record>, prior: Option<GraphView>, proposed: Option<GraphView>, p: Path) {
    exists i | 0 <= i < |rs| :: !FirstPass(rs[i], prior, proposed).Optional? && NamesSourcePath(rs[i], p)
  }

  predicate IsRepository(r: Record) { r.phase.RegisteredRepository? || r.phase.WorkspaceRepository? }

  ghost predicate Promoted(rs: seq<Record>, prior: Option<GraphView>, proposed: Option<GraphView>, r: Record) {
    && IsRepository(r)
    && (|| SourceNeeded(rs, prior, proposed, r.id)
        || (exists i | 0 <= i < |r.aliases| :: SourceNeeded(rs, prior, proposed, r.aliases[i]))
        || (CheckoutOrId(r).Some? && SourcePathNeeded(rs, prior, proposed, CheckoutOrId(r).value)))
  }

  /** What one record ends up with, given all of them. */
  ghost function Closed(rs: seq<Record>, prior: Option<GraphView>, proposed: Option<GraphView>,
      r: Record): Requirement {
    if Promoted(rs, prior, proposed, r) then Required else FirstPass(r, prior, proposed)
  }

  ghost function Apply(rs: seq<Record>, prior: Option<GraphView>, proposed: Option<GraphView>): seq<Record> {
    seq(|rs|, i requires 0 <= i < |rs| => rs[i].(required := Closed(rs, prior, proposed, rs[i])))
  }

  /** Adds what one record names to the two sets the second pass looks at. */
  method AddSources(r: Record, names0: set<Name>, paths0: set<Path>) returns (names: set<Name>, paths: set<Path>)
    ensures forall n :: n in names <==> n in names0 || NamesSource(r, n)
    ensures forall p :: p in paths <==> p in paths0 || NamesSourcePath(r, p)
  {
    names, paths := names0, paths0;
    if r.phase.SkillsManifest? {
      names := names + set n | n in r.sources;
      for i := 0 to |r.sourceStates|
        invariant forall n :: n in names <==>
                    n in names0 || n in r.sources || exists j | 0 <= j < i :: r.sourceStates[j].name == Some(n)
        invariant forall p :: p in paths <==>
            p in paths0 || exists j | 0 <= j < i :: r.sourceStates[j].checkout == Some(p)
      {
        if r.sourceStates[i].name.Some? { names := names + {r.sourceStates[i].name.value}; }
        if r.sourceStates[i].checkout.Some? { paths := paths + {r.sourceStates[i].checkout.value}; }
      }
    } else if r.phase.DefaultSkills? && r.source.Some? {
      names := names + {r.source.value};
      if r.sourceCheckout.Some? { paths := paths + {r.sourceCheckout.value}; }
    }
  }

  /** The middle loop, over all records. */
  method CollectSources(rs: seq<Record>, prior: Option<GraphView>, proposed: Option<GraphView>)
    returns (names: set<Name>, paths: set<Path>)
    ensures forall n :: n in names <==> SourceNeeded(rs, prior, proposed, n)
    ensures forall p :: p in paths <==> SourcePathNeeded(rs, prior, proposed, p)
  {
    names, paths := {}, {};
    for k := 0 to |rs|
      invariant forall n :: n in names <==>
                  exists i | 0 <= i < k :: !FirstPass(rs[i], prior, proposed).Optional? && NamesSource(rs[i], n)
      invariant forall p :: p in paths <==>
                  exists i | 0 <= i < k :: !FirstPass(rs[i], prior, proposed).Optional? && NamesSourcePath(rs[i], p)
    {
      if !FirstPass(rs[k], prior, proposed).Optional? {
        names, paths := AddSources(rs[k], names, paths);
      }
    }
  }

  /** `applyGraphRequirements`: two maps around the loop above. */
  method ApplyGraphRequirements(rs: seq<Record>, prior: Option<GraphView>, proposed: Option<GraphView>)
    returns (out: seq<Record>)
    ensures out == Apply(rs, prior, proposed)
  {
    var names, paths := CollectSources(rs, prior, proposed);
    out := [];
    for k := 0 to |rs|
      invariant |out| == k
      invariant forall i | 0 <= i < k :: out[i] == rs[i].(required := Closed(rs, prior, proposed, rs[i]))
    {
      var r := rs[k];
      var required := FirstPass(r, prior, proposed);
      if IsRepository(r) && !required.Required? {
        var checkout := CheckoutOrId(r);
        if Named(r, names) || (checkout.Some? && checkout.value in paths) { required := Required; }
      }
      out := out + [r.(required := required)];
    }
  }

  // -------- The closure is a fixpoint --------

  /** Sources are named by records whose own requirement the second pass never changes. */
  lemma ReapplyingKeepsFirstPass(rs: seq<Record>, prior: Option<GraphView>, proposed: Option<GraphView>, r: Record)
    ensures var r' := r.(required := Closed(rs, prior, proposed, r));
            && (!IsRepository(r) ==> FirstPass(r', prior, proposed) == FirstPass(r, prior, proposed))
            && (FirstPass(r', prior, proposed) == FirstPass(r, prior, proposed)
                || (Promoted(rs, prior, proposed, r) && FirstPass(r', prior, proposed).Required?))
  {
  }

  lemma ReapplyingKeepsSources(rs: seq<Record>, prior: Option<GraphView>, proposed: Option<GraphView>, n: Name, p: Path)
    ensures SourceNeeded(Apply(rs, prior, proposed), prior, proposed, n) <==> SourceNeeded(rs, prior, proposed, n)
    ensures SourcePathNeeded(Apply(rs, prior, proposed), prior, proposed, p) <==>
        SourcePathNeeded(rs, prior, proposed, p)
  {
    var out := Apply(rs, prior, proposed);
    forall i | 0 <= i < |rs|
      ensures NamesSource(rs[i], n) || NamesSourcePath(rs[i], p) ==>
                FirstPass(out[i], prior, proposed) == FirstPass(rs[i], prior, proposed)
      ensures NamesSource(out[i], n) <==> NamesSource(rs[i], n)
      ensures NamesSourcePath(out[i], p) <==> NamesSourcePath(rs[i], p)
    {
      ReapplyingKeepsFirstPass(rs, prior, proposed, rs[i]);
    }
  }

  lemma ReapplyingKeepsPromotion(rs: seq<Record>, prior: Option<GraphView>, proposed: Option<GraphView>, r: Record,
      q: Requirement)
    ensures Promoted(Apply(rs, prior, proposed), prior, proposed, r.(required := q)) <==>
        Promoted(rs, prior, proposed, r)
  {
    var out := Apply(rs, prior, proposed);
    forall n ensures SourceNeeded(out, prior, proposed, n) <==> SourceNeeded(rs, prior, proposed, n) {
      ReapplyingKeepsSources(rs, prior, proposed, n, []);
    }
    forall p ensures SourcePathNeeded(out, prior, proposed, p) <==> SourcePathNeeded(rs, prior, proposed, p) {
      ReapplyingKeepsSources(rs, prior, proposed, "", p);
    }
  }

  /** One application reaches the fixpoint, although the second pass feeds on the first. */
  lemma ClosureIsIdempotent(rs: seq<Record>, prior: Option<GraphView>, proposed: Option<GraphView>)
    ensures Apply(Apply(rs, prior, proposed), prior, proposed) == Apply(rs, prior, proposed)
  {
    var out := Apply(rs, prior, proposed);
    forall i | 0 <= i < |rs| ensures Apply(out, prior, proposed)[i] == out[i] {
      ReapplyingKeepsFirstPass(rs, prior, proposed, rs[i]);
      ReapplyingKeepsPromotion(rs, prior, proposed, rs[i], out[i].required);
    }
  }

  // -------- Less knowledge never allows more --------

  /** `h` has every member of `g` and determines no more; a missing graph determines nothing. */
  ghost predicate Extends(g: Option<GraphView>, h: Option<GraphView>) {
    h.Some? ==>
      && g.Some?
      && g.value.repositories <= h.value.repositories && g.value.repositoryPaths <= h.value.repositoryPaths
      && g.value.linkNames <= h.value.linkNames && g.value.linkPaths <= h.value.linkPaths
      && g.value.skillNames <= h.value.skillNames && g.value.skillPaths <= h.value.skillPaths
      && g.value.scopePaths <= h.value.scopePaths
      && (h.value.determinable ==> g.value.determinable)
      && (h.value.scopesDetermined ==> g.value.scopesDetermined)
  }

  lemma FirstPassGrows(r: Record, prior: Option<GraphView>, prior': Option<GraphView>,
                       proposed: Option<GraphView>, proposed': Option<GraphView>)
    requires Extends(prior, prior') && Extends(proposed, proposed')
    ensures FirstPass(r, prior', proposed').Optional? ==> FirstPass(r, prior, proposed).Optional?
  {
  }

  lemma ClosureGrows(rs: seq<Record>, prior: Option<GraphView>, prior': Option<GraphView>,
                     proposed: Option<GraphView>, proposed': Option<GraphView>, r: Record)
    requires Extends(prior, prior') && Extends(proposed, proposed')
    ensures Closed(rs, prior', proposed', r).Optional? ==> Closed(rs, prior, proposed, r).Optional?
  {
    FirstPassGrows(r, prior, prior', proposed, proposed');
    forall n | SourceNeeded(rs, prior, proposed, n) ensures SourceNeeded(rs, prior', proposed', n) {
      var i :| 0 <= i < |rs| && !FirstPass(rs[i], prior, proposed).Optional? && NamesSource(rs[i], n);
      FirstPassGrows(rs[i], prior, prior', proposed, proposed');
    }
    forall p | SourcePathNeeded(rs, prior, proposed, p) ensures SourcePathNeeded(rs, prior', proposed', p) {
      var i :| 0 <= i < |rs| && !FirstPass(rs[i], prior, proposed).Optional? && NamesSourcePath(rs[i], p);
      FirstPassGrows(rs[i], prior, prior', proposed, proposed');
    }
  }

  // -------- The decision --------

  predicate Verified(r: Record) { r.outcome.Changed? || r.outcome.Unchanged? }

  predicate Errored(r: Record) { r.outcome.Failed? || r.outcome.Uncertain? }

  predicate Unresolved(r: Record) { !r.required.Optional? && !Verified(r) }

  function Filter(rs: seq<Record>, keep: Record -> bool): seq<Record> {
    if rs == [] then [] else (if keep(rs[0]) then [rs[0]] else []) + Filter(rs[1..], keep)
  }

  datatype Status = Complete | CompleteWithSkips | Partial | FailedStatus

  datatype Decision = Decision(status: Status, exitCode: int, activationAllowed: bool, blockedBy: seq<Record>,
      errors: seq<Record>)

  function Decide(rs: seq<Record>): Decision {
    var errors := Filter(rs, Errored);
    var unresolved := Filter(rs, Unresolved);
    var allowed := |unresolved| == 0;
    var exitCode := if |errors| > 0 || |unresolved| > 0 then 1 else 0;
    var status := if exitCode != 0 then (if allowed then Partial else FailedStatus)
                  else if exists i | 0 <= i < |rs| :: !Verified(rs[i]) then CompleteWithSkips else Complete;
    Decision(status, exitCode, allowed, unresolved, errors)
  }

  lemma {:induction false} FilterMeaning(rs: seq<Record>, keep: Record -> bool)
    ensures |Filter(rs, keep)| == 0 <==> forall i | 0 <= i < |rs| :: !keep(rs[i])
    ensures forall r :: r in Filter(rs, keep) <==> r in rs && keep(r)
  {
    if rs != [] {
      FilterMeaning(rs[1..], keep);
      assert forall i | 0 < i < |rs| :: rs[i] == rs[1..][i - 1];
    }
  }

  lemma {:induction false} FilterConcat(a: seq<Record>, b: seq<Record>, keep: Record -> bool)
    ensures Filter(a + b, keep) == Filter(a, keep) + Filter(b, keep)
  {
    if a == [] {
      assert a + b == b;
    } else {
      var head := if keep(a[0]) then [a[0]] else [];
      calc {
        Filter(a + b, keep);
      == { assert (a + b)[1..] == a[1..] + b; }
        head + Filter(a[1..] + b, keep);
      == { FilterConcat(a[1..], b, keep); }
        head + (Filter(a[1..], keep) + Filter(b, keep));
      ==
        Filter(a, keep) + Filter(b, keep);
      }
    }
  }

  /** Activation is allowed exactly when every record proved required, or left undecided, is verified. */
  lemma ActivationMeansVerified(rs: seq<Record>)
    ensures Decide(rs).activationAllowed <==> forall i | 0 <= i < |rs| :: rs[i].required.Optional? || Verified(rs[i])
    ensures Decide(rs).exitCode == 0 <==>
            Decide(rs).activationAllowed && forall i | 0 <= i < |rs| :: !Errored(rs[i])
    ensures Decide(rs).status == Complete <==> forall i | 0 <= i < |rs| :: Verified(rs[i])
    ensures Decide(rs).status == FailedStatus <==> !Decide(rs).activationAllowed
    ensures Decide(rs).status == Partial <==>
            Decide(rs).activationAllowed && exists i | 0 <= i < |rs| :: Errored(rs[i])
    ensures forall r :: r in Decide(rs).blockedBy <==> r in rs && !r.required.Optional? && !Verified(r)
    ensures forall r :: r in Decide(rs).errors <==> r in rs && Errored(r)
  {
    FilterMeaning(rs, Errored);
    FilterMeaning(rs, Unresolved);
  }

  function Severity(s: Status): int {
    match s case Complete => 0 case CompleteWithSkips => 1 case Partial => 2 case FailedStatus => 3
  }

  function Worse(s: Status, t: Status): Status { if Severity(s) < Severity(t) then t else s }

  /** Deciding two batches together is the worse of deciding them apart. */
  lemma DecisionsCompose(a: seq<Record>, b: seq<Record>)
    ensures Decide(a + b).activationAllowed <==> Decide(a).activationAllowed && Decide(b).activationAllowed
    ensures Decide(a + b).exitCode == Max(Decide(a).exitCode, Decide(b).exitCode)
    ensures Decide(a + b).blockedBy == Decide(a).blockedBy + Decide(b).blockedBy
    ensures Decide(a + b).errors == Decide(a).errors + Decide(b).errors
    ensures Decide(a + b).status == Worse(Decide(a).status, Decide(b).status)
  {
    FilterConcat(a, b, Errored);
    FilterConcat(a, b, Unresolved);
    assert (exists i | 0 <= i < |a + b| :: !Verified((a + b)[i])) <==>
           (exists i | 0 <= i < |a| :: !Verified(a[i])) || (exists i | 0 <= i < |b| :: !Verified(b[i])) by {
      if i :| 0 <= i < |a| && !Verified(a[i]) { assert (a + b)[i] == a[i]; }
      if i :| 0 <= i < |b| && !Verified(b[i]) { assert (a + b)[|a| + i] == b[i]; }
    }
  }

  /**
   * Adding graph members or losing determinability never turns a blocked activation into an
   * allowed one, through both passes of the closure.
   */
  lemma LessKnowledgeNeverActivates(rs: seq<Record>, prior: Option<GraphView>, prior': Option<GraphView>,
                                    proposed: Option<GraphView>, proposed': Option<GraphView>)
    requires Extends(prior, prior') && Extends(proposed, proposed')
    ensures Decide(Apply(rs, prior', proposed')).activationAllowed ==>
        Decide(Apply(rs, prior, proposed)).activationAllowed
  {
    var more, less := Apply(rs, prior, proposed), Apply(rs, prior', proposed');
    ActivationMeansVerified(more);
    ActivationMeansVerified(less);
    forall i | 0 <= i < |rs| ensures less[i].required.Optional? ==> more[i].required.Optional? {
      ClosureGrows(rs, prior, prior', proposed, proposed', rs[i]);
    }
  }

  /** `readUpdateReport`: a report is accepted only when its claims match its own records. */
  predicate AcceptsReport(rs: seq<Record>, exitCode: int, activationAllowed: bool) {
    Decide(rs).exitCode == exitCode && Decide(rs).activationAllowed == activationAllowed
  }

  /** An accepted report cannot claim success or activation that its records do not support. */
  lemma AcceptedReportIsSupported(rs: seq<Record>, exitCode: int, activationAllowed: bool)
    requires AcceptsReport(rs, exitCode, activationAllowed)
    ensures activationAllowed <==> forall i | 0 <= i < |rs| :: rs[i].required.Optional? || Verified(rs[i])
    ensures exitCode == 0 <==> activationAllowed && forall i | 0 <= i < |rs| :: !Errored(rs[i])
  {
    ActivationMeansVerified(rs);
  }
}
