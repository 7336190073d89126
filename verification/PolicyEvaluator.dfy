/**
 The policy evaluator: structured file accesses, and commands whose findings are
 judged one by one and combined into one decision. Classification of paths,
 protected-path rules, attribution patterns and Git classification are parameters.
 */
module PolicyEvaluator {
  import opened Wrappers
  import opened Paths

  datatype FsAccess =
    | Metadata | List | Read | Write | Create | Delete | MoveSource | MoveDestination | CopyDestination | Mkdir

  datatype OpClass = Writes | Deletes

  datatype Risk = Low | Medium | High | Critical

  datatype ErrorCode = ConfigFault | PermissionDenied | ProtectedResource | AttributionBlocked

  datatype Scope = PathPrefix(operation: OpClass, prefix: Path) | Exact(key: string)

  datatype Requirement = Requirement(
    category: string,
    reasons: seq<string>,
    risk: Risk,
    paths: seq<Path>,
    command: Option<string>,
    scope: Scope)

  datatype Warning =
    | ShellChecksOff | GlobalInstall | DynamicBehaviour | Unclassified | Unresolved | UsesProtected
    | ByPolicyGrant | BySession | NotParsed | FromGit

  datatype Decision = Allow(warnings: seq<Warning>) | Deny(code: ErrorCode) | RequireApproval(requirement: Requirement)

  datatype CacheArea = Task(task: string) | Tool(scope: string) | Other

  datatype PathClass = Trusted | CacheTemp(area: CacheArea) | ControlData | External

  datatype InstallPolicy = InstallAllow | InstallDeny | InstallAsk

  datatype ExternalGrant = ExternalGrant(prefix: Path, allowDelete: bool)

  /** A Git requirement is bound to the exact command unless it names a key of its own. */
  datatype GitVerdict = GitAllow(warns: bool) | GitDeny | GitAsk(reason: string, risk: Risk, paths: seq<Path>,
      key: Option<string>)

  datatype Engine = Engine(
    fold: string -> string,
    classify: Path -> PathClass,
    guarded: (Path, bool) -> bool,
    excepted: Path -> bool,
    attributed: string -> bool,
    refDiscloses: string -> bool,
    identityDiscloses: string -> bool,
    git: nat -> GitVerdict,
    externalGrants: seq<ExternalGrant>,
    installPolicy: InstallPolicy,
    configFault: bool,
    shellChecks: bool)

  datatype Context = Context(principal: string, ownsTask: string -> bool, grants: seq<Scope>)

  datatype Category =
    | ReadOnly | PackageLocal | PackageGlobal | GitSafe | GitDestructive | GithubRead | GithubWrite
    | CredentialAccess | SystemChange | Admin | Network | Dynamic | Unknown

  datatype RefAccess = RefReadDisclose | RefRead | RefWrite | RefDelete | RefUnknown

  datatype PathRef = PathRef(resolved: Option<Path>, access: RefAccess)

  datatype Finding = Finding(
    category: Category,
    onlyReads: bool,
    texts: seq<string>,
    refs: seq<string>,
    identities: seq<string>,
    git: Option<nat>,
    ghDestructive: bool,
    paths: seq<PathRef>)

  /** `key` is the digest of the working directory and the text. */
  datatype Command = Command(cwd: Path, key: string, text: string, findings: seq<Finding>, parseErrors: bool)

  // ------------------------------------------------------------ scopes

  predicate Covers(fold: string -> string, a: Scope, b: Scope) {
    match (a, b)
    case (PathPrefix(o, p), PathPrefix(o', p')) => o == o' && StartsWithCi(fold, p', p)
    case (Exact(k), Exact(k')) => k == k'
    case _ => false
  }

  predicate Granted(e: Engine, ctx: Context, s: Scope) {
    exists i :: 0 <= i < |ctx.grants| && Covers(e.fold, ctx.grants[i], s)
  }

  lemma CoversIsAPreorder(fold: string -> string, a: Scope, b: Scope, c: Scope)
    ensures Covers(fold, a, a)
    ensures Covers(fold, a, b) && Covers(fold, b, c) ==> Covers(fold, a, c)
  {
    if a.PathPrefix? && b.PathPrefix? && c.PathPrefix? && Covers(fold, a, b) && Covers(fold, b, c) {
      var (ka, kb, kc) := (Key(fold, a.prefix), Key(fold, b.prefix), Key(fold, c.prefix));
      assert ka == kb[..|ka|] && kb == kc[..|kb|];
      assert ka == kc[..|ka|];
    }
  }

  // ------------------------------------------------------------ file accesses

  predicate IsMutation(a: FsAccess) {
    !(a.Metadata? || a.List? || a.Read?)
  }

  function ClassOf(a: FsAccess): OpClass {
    if a.Delete? || a.MoveSource? then Deletes else Writes
  }

  function FsScope(p: Path, a: FsAccess): Scope {
    PathPrefix(ClassOf(a), if p == [] then p else p[..|p| - 1])
  }

  function FsRequirement(p: Path, a: FsAccess): Requirement {
    Requirement(
      if ClassOf(a) == Deletes then "external_delete" else "external_write",
      ["outside the trusted workspace"],
      if ClassOf(a) == Deletes then High else Medium,
      [p], None, FsScope(p, a))
  }

  predicate LocallyGranted(e: Engine, p: Path, a: FsAccess) {
    exists i :: 0 <= i < |e.externalGrants| &&
                StartsWithCi(e.fold, p, e.externalGrants[i].prefix)
                    && (e.externalGrants[i].allowDelete || ClassOf(a) == Writes)
  }

  function EvaluateFs(e: Engine, p: Path, a: FsAccess, ctx: Context): Decision {
    var kind := e.classify(p);
    if e.configFault && IsMutation(a) then Deny(ConfigFault)
    else if kind == ControlData then Deny(PermissionDenied)
    else if e.guarded(p, !IsMutation(a)) && !a.Metadata? && !(IsMutation(a) && e.excepted(p))
    then Deny(ProtectedResource)
    else if kind == Trusted then Allow([])
    else if kind.CacheTemp? then
      if (kind.area.Task? && ctx.ownsTask(kind.area.task)) || (kind.area.Tool? && kind.area.scope == ctx.principal)
      then Allow([])
      else Deny(PermissionDenied)
    else if !IsMutation(a) then Allow([])
    else if LocallyGranted(e, p, a) then Allow([ByPolicyGrant])
    else if Granted(e, ctx, FsScope(p, a)) then Allow([BySession])
    else RequireApproval(FsRequirement(p, a))
  }

  // ------------------------------------------------------------ judging one finding

  datatype Verdict = Denied(code: ErrorCode) | Passed(warnings: seq<Warning>, asks: seq<Requirement>)

  const Nothing := Passed([], [])

  /** First one judgement, then another, stopping at a denial. */
  function AndThen(v: Verdict, w: Verdict): Verdict {
    if v.Denied? then v
    else if w.Denied? then w
    else Passed(v.warnings + w.warnings, v.asks + w.asks)
  }

  function CwdTrusted(e: Engine, cwd: Path, ctx: Context): bool {
    var kind := e.classify(cwd);
    kind == Trusted || (kind.CacheTemp? && kind.area.Task? && ctx.ownsTask(kind.area.task))
  }

  function Ask(c: Command, category: string, reason: string, risk: Risk, paths: seq<Path>): Verdict {
    Passed([], [Requirement(category, [reason], risk, paths, Some(c.text), Exact(c.key))])
  }

  function ByCategory(e: Engine, c: Command, f: Finding, ctx: Context): Verdict {
    var trusted := CwdTrusted(e, c.cwd, ctx);
    match f.category
    case CredentialAccess => Denied(ProtectedResource)
    case Admin => Denied(PermissionDenied)
    case SystemChange => Ask(c, "system_change", "changes configuration", High, [])
    case PackageGlobal =>
      (match e.installPolicy
       case InstallAllow => Passed([GlobalInstall], [])
       case InstallDeny => Denied(PermissionDenied)
       case InstallAsk => Ask(c, "package_global", "installs outside the project", Medium, []))
    case PackageLocal =>
      if trusted then Nothing
      else Ask(c, "external_write", "installs outside the workspace", Medium, [c.cwd])
    case Dynamic => Passed([DynamicBehaviour], [])
    case Unknown =>
      if !trusted && !f.onlyReads then Ask(c, "unknown_external", "runs outside the workspace", Medium, [c.cwd])
      else Passed([Unclassified], [])
    case _ => Nothing
  }

  predicate Discloses(e: Engine, f: Finding) {
    || (exists i :: 0 <= i < |f.texts| && e.attributed(f.texts[i]))
    || (exists i :: 0 <= i < |f.refs| && e.refDiscloses(f.refs[i]))
    || (exists i :: 0 <= i < |f.identities| && e.identityDiscloses(f.identities[i]))
  }

  function ByAttribution(e: Engine, f: Finding): Verdict {
    if Discloses(e, f) then Denied(AttributionBlocked) else Nothing
  }

  function ByGit(e: Engine, c: Command, f: Finding): Verdict {
    if f.git.None? then Nothing
    else
      match e.git(f.git.value)
      case GitAllow(warns) => Passed(if warns then [FromGit] else [], [])
      case GitDeny => Denied(ProtectedResource)
      case GitAsk(reason, risk, paths, key) =>
        Passed([], [Requirement("git", [reason], risk, paths, Some(c.text),
            Exact(if key.Some? then key.value else c.key))])
  }

  function ByGh(c: Command, f: Finding): Verdict {
    if f.ghDestructive then Ask(c, "github_destructive", "irreversible remote change", High, []) else Nothing
  }

  function JudgePath(e: Engine, c: Command, r: PathRef, ctx: Context): Verdict {
    var writes := r.access.RefWrite? || r.access.RefDelete?;
    if r.resolved.None? then Passed(if writes then [Unresolved] else [], [])
    else
      var p := r.resolved.value;
      var guarded := e.guarded(p, r.access.RefRead? || r.access.RefReadDisclose?);
      if e.classify(p) == ControlData && !r.access.RefRead? then Denied(PermissionDenied)
      else if guarded && (writes || r.access.RefReadDisclose?) then Denied(ProtectedResource)
      else if !writes then Passed(if guarded && r.access.RefUnknown? then [UsesProtected] else [], [])
      else
        match EvaluateFs(e, p, if r.access.RefDelete? then Delete else Write, ctx)
        case Allow(w) => Passed(w, [])
        case Deny(code) => Denied(code)
        case RequireApproval(q) => Passed([], [q.(category := "shell_" + q.category, command := Some(c.text))])
  }

  function JudgePaths(e: Engine, c: Command, rs: seq<PathRef>, ctx: Context): Verdict {
    if rs == [] then Nothing else AndThen(JudgePaths(e, c, rs[..|rs| - 1], ctx), JudgePath(e, c, rs[|rs| - 1], ctx))
  }

  function Judge(e: Engine, c: Command, f: Finding, ctx: Context): Verdict {
    AndThen(AndThen(AndThen(AndThen(ByCategory(e, c, f, ctx), ByAttribution(e, f)), ByGit(e, c, f)), ByGh(c, f)),
        JudgePaths(e, c, f.paths, ctx))
  }

  function JudgeAll(e: Engine, c: Command, fs: seq<Finding>, ctx: Context): Verdict {
    if fs == [] then Nothing else AndThen(JudgeAll(e, c, fs[..|fs| - 1], ctx), Judge(e, c, fs[|fs| - 1], ctx))
  }

  // ------------------------------------------------------------ combining

  predicate AnyDynamic(fs: seq<Finding>) {
    exists i :: 0 <= i < |fs| && fs[i].category == Dynamic
  }

  function Tail(e: Engine, c: Command, ctx: Context): Verdict {
    var trusted := CwdTrusted(e, c.cwd, ctx);
    AndThen(
      if !c.parseErrors then Nothing
      else if trusted then Passed([NotParsed], [])
      else AndThen(Passed([NotParsed], []), Ask(c, "unknown_external", "could not be parsed", Medium, [c.cwd])),
      if AnyDynamic(c.findings) && !trusted
      then Ask(c, "unknown_external", "dynamic execution", Medium, [c.cwd])
      else Nothing)
  }

  function OfRisk(asks: seq<Requirement>, r: Risk): seq<Requirement> {
    if asks == [] then []
    else
      var last := asks[|asks| - 1];
      OfRisk(asks[..|asks| - 1], r) + if last.risk == r then [last] else []
  }

  /** Highest risk first, otherwise in the order found. */
  function ByRisk(asks: seq<Requirement>): seq<Requirement> {
    OfRisk(asks, Critical) + OfRisk(asks, High) + OfRisk(asks, Medium) + OfRisk(asks, Low)
  }

  function AllPaths(asks: seq<Requirement>): seq<Path> {
    if asks == [] then [] else AllPaths(asks[..|asks| - 1]) + asks[|asks| - 1].paths
  }

  function AllReasons(asks: seq<Requirement>): seq<string> {
    if asks == [] then [] else AllReasons(asks[..|asks| - 1]) + asks[|asks| - 1].reasons
  }

  /** Removal of repeated neighbours. */
  function Dedup(ps: seq<Path>): seq<Path> {
    if |ps| < 2 then ps
    else if ps[|ps| - 1] == ps[|ps| - 2] then Dedup(ps[..|ps| - 1])
    else Dedup(ps[..|ps| - 1]) + [ps[|ps| - 1]]
  }

  function Combine(c: Command, asks: seq<Requirement>): Requirement
    requires ByRisk(asks) != []
  {
    var sorted := ByRisk(asks);
    var first := sorted[0];
    if |asks| > 1 then
      first.(reasons := AllReasons(sorted), paths := Dedup(AllPaths(sorted)), scope := Exact(c.key),
          command := Some(c.text))
    else
      first.(scope := if first.scope.Exact? then first.scope else Exact(c.key), command := Some(c.text))
  }

  predicate AllGranted(e: Engine, ctx: Context, asks: seq<Requirement>) {
    forall i :: 0 <= i < |asks| ==> Granted(e, ctx, asks[i].scope)
  }

  function Settle(e: Engine, c: Command, v: Verdict, ctx: Context): Decision {
    if v.Denied? then Deny(v.code)
    else if ByRisk(v.asks) == [] then Allow(v.warnings)
    else if Granted(e, ctx, Combine(c, v.asks).scope) || AllGranted(e, ctx, v.asks) then Allow(v.warnings + [BySession])
    else RequireApproval(Combine(c, v.asks))
  }

  function Gathered(e: Engine, c: Command, ctx: Context): Verdict {
    AndThen(JudgeAll(e, c, c.findings, ctx), Tail(e, c, ctx))
  }

  function Gatekept(e: Engine, c: Command): Option<Decision> {
    if e.classify(c.cwd) == ControlData then Some(Deny(PermissionDenied))
    else if e.guarded(c.cwd, true) then Some(Deny(ProtectedResource))
    else if e.configFault then Some(Deny(ConfigFault))
    else if !e.shellChecks then Some(Allow([ShellChecksOff]))
    else None
  }

  function Evaluate(e: Engine, c: Command, ctx: Context): Decision {
    var d := Gatekept(e, c);
    if d.Some? then d.value else Settle(e, c, Gathered(e, c, ctx), ctx)
  }

  // ------------------------------------------------------------ sorting by risk

  lemma {:induction false} OfRiskIn(asks: seq<Requirement>, r: Risk, a: Requirement)
    ensures a in OfRisk(asks, r) <==> a in asks && a.risk == r
  {
    if asks != [] {
      OfRiskIn(asks[..|asks| - 1], r, a);
      assert asks == asks[..|asks| - 1] + [asks[|asks| - 1]];
    }
  }

  lemma ByRiskIn(asks: seq<Requirement>, a: Requirement)
    ensures a in ByRisk(asks) <==> a in asks
  {
    hide OfRisk;
    OfRiskIn(asks, Critical, a);
    OfRiskIn(asks, High, a);
    OfRiskIn(asks, Medium, a);
    OfRiskIn(asks, Low, a);
  }

  function Rank(r: Risk): nat {
    match r case Low => 0 case Medium => 1 case High => 2 case Critical => 3
  }

  lemma FirstIsRiskiest(asks: seq<Requirement>, a: Requirement)
    requires a in asks
    ensures ByRisk(asks) != [] && Rank(a.risk) <= Rank(ByRisk(asks)[0].risk) && ByRisk(asks)[0] in asks
  {
    hide OfRisk;
    ByRiskIn(asks, a);
    var s := ByRisk(asks);
    ByRiskIn(asks, s[0]);
    OfRiskIn(asks, Critical, a);
    OfRiskIn(asks, High, a);
    OfRiskIn(asks, Medium, a);
    FirstOf(asks, Critical);
    FirstOf(asks, High);
    FirstOf(asks, Medium);
  }

  lemma FirstOf(asks: seq<Requirement>, r: Risk)
    ensures OfRisk(asks, r) != [] ==> OfRisk(asks, r)[0].risk == r
  {
    hide OfRisk;
    if OfRisk(asks, r) != [] {
      OfRiskIn(asks, r, OfRisk(asks, r)[0]);
    }
  }

  lemma NothingToSort(asks: seq<Requirement>)
    ensures ByRisk(asks) == [] <==> asks == []
  {
    hide ByRisk;
    if asks != [] {
      ByRiskIn(asks, asks[0]);
    } else if ByRisk(asks) != [] {
      ByRiskIn(asks, ByRisk(asks)[0]);
    }
  }

  lemma {:induction false} AllPathsIn(asks: seq<Requirement>, p: Path)
    ensures p in AllPaths(asks) <==> exists a :: a in asks && p in a.paths
  {
    if asks != [] {
      var (front, last) := (asks[..|asks| - 1], asks[|asks| - 1]);
      AllPathsIn(front, p);
      assert asks == front + [last];
      assert forall a :: a in asks <==> a in front || a == last;
    }
  }

  lemma {:induction false} DedupIn(ps: seq<Path>, p: Path)
    ensures p in Dedup(ps) <==> p in ps
  {
    if |ps| >= 2 {
      DedupIn(ps[..|ps| - 1], p);
      assert ps == ps[..|ps| - 1] + [ps[|ps| - 1]];
      assert ps[|ps| - 2] in ps[..|ps| - 1];
    }
  }

  /** A combined requirement carries the highest risk and exactly the paths of its parts, and is bound to an
      exact key: the command's own if there are several parts. */
  lemma CombinedCarriesAll(c: Command, asks: seq<Requirement>)
    requires asks != []
    ensures ByRisk(asks) != []
    ensures forall a :: a in asks ==> Rank(a.risk) <= Rank(Combine(c, asks).risk)
    ensures exists a :: a in asks && a.risk == Combine(c, asks).risk
    ensures forall p :: p in Combine(c, asks).paths <==> exists a :: a in asks && p in a.paths
    ensures Combine(c, asks).scope.Exact? && Combine(c, asks).command == Some(c.text)
    ensures |asks| > 1 ==> Combine(c, asks).scope == Exact(c.key)
  {
    hide ByRisk, AllPaths, AllReasons, Dedup, Rank;
    NothingToSort(asks);
    var (s, q) := (ByRisk(asks), Combine(c, asks));
    forall a | a in asks
      ensures Rank(a.risk) <= Rank(q.risk) && s[0] in asks
    {
      FirstIsRiskiest(asks, a);
    }
    assert asks[0] in asks && s[0].risk == q.risk;
    forall p
      ensures p in q.paths <==> exists a :: a in asks && p in a.paths
    {
      if |asks| > 1 {
        DedupIn(AllPaths(s), p);
        AllPathsIn(s, p);
        forall a ensures a in s <==> a in asks { ByRiskIn(asks, a); }
      } else {
        assert asks == [asks[0]] && s[0] == asks[0];
      }
    }
  }

  // ------------------------------------------------------------ denial

  lemma FsDenyIgnoresGrants(e: Engine, p: Path, a: FsAccess, ctx: Context, other: seq<Scope>)
    ensures var d := EvaluateFs(e, p, a, ctx);
            var d' := EvaluateFs(e, p, a, ctx.(grants := other));
            (d.Deny? || d'.Deny?) ==> d == d'
  {
  }

  predicate SameDenial(v: Verdict, w: Verdict) {
    (v.Denied? || w.Denied?) ==> v == w
  }

  lemma {:induction false} PathsDenyIgnoresGrants(e: Engine, c: Command, rs: seq<PathRef>, ctx: Context,
      other: seq<Scope>)
    ensures SameDenial(JudgePaths(e, c, rs, ctx), JudgePaths(e, c, rs, ctx.(grants := other)))
  {
    hide EvaluateFs;
    if rs != [] {
      PathsDenyIgnoresGrants(e, c, rs[..|rs| - 1], ctx, other);
      var r := rs[|rs| - 1];
      if r.resolved.Some? {
        FsDenyIgnoresGrants(e, r.resolved.value, Delete, ctx, other);
        FsDenyIgnoresGrants(e, r.resolved.value, Write, ctx, other);
      }
    }
  }

  lemma {:induction false} AllDenyIgnoresGrants(e: Engine, c: Command, fs: seq<Finding>, ctx: Context,
      other: seq<Scope>)
    ensures SameDenial(JudgeAll(e, c, fs, ctx), JudgeAll(e, c, fs, ctx.(grants := other)))
  {
    hide JudgePaths, ByAttribution, ByGit, ByGh;
    if fs != [] {
      var f := fs[|fs| - 1];
      AllDenyIgnoresGrants(e, c, fs[..|fs| - 1], ctx, other);
      PathsDenyIgnoresGrants(e, c, f.paths, ctx, other);
      assert ByCategory(e, c, f, ctx) == ByCategory(e, c, f, ctx.(grants := other));
    }
  }

  /** Whether a command is denied, and why, does not depend on session grants. */
  lemma DenyIgnoresGrants(e: Engine, c: Command, ctx: Context, other: seq<Scope>)
    ensures var d := Evaluate(e, c, ctx);
            var d' := Evaluate(e, c, ctx.(grants := other));
            (d.Deny? || d'.Deny?) ==> d == d'
  {
    hide JudgeAll, Combine, ByRisk, AnyDynamic;
    AllDenyIgnoresGrants(e, c, c.findings, ctx, other);
    assert Tail(e, c, ctx) == Tail(e, c, ctx.(grants := other));
  }

  // ------------------------------------------------------------ severity

  function Severity(d: Decision): nat {
    match d case Allow(_) => 0 case RequireApproval(_) => 1 case Deny(_) => 2
  }

  function Weight(v: Verdict): nat {
    if v.Denied? then 2 else if v.asks == [] then 0 else 1
  }

  function Max(a: nat, b: nat): nat {
    if a <= b then b else a
  }

  lemma ThenWeighs(v: Verdict, w: Verdict)
    ensures Weight(AndThen(v, w)) == Max(Weight(v), Weight(w))
  {
  }

  /** The weight of one finding depends on where the command runs, not on its text or key. */
  function FindingWeight(e: Engine, cwd: Path, f: Finding, ctx: Context): nat {
    Weight(Judge(e, Command(cwd, "", "", [], false), f, ctx))
  }

  lemma {:induction false} PathsWeigh(e: Engine, c: Command, d: Command, rs: seq<PathRef>, ctx: Context)
    ensures Weight(JudgePaths(e, c, rs, ctx)) == Weight(JudgePaths(e, d, rs, ctx))
  {
    hide EvaluateFs;
    if rs != [] {
      PathsWeigh(e, c, d, rs[..|rs| - 1], ctx);
      ThenWeighs(JudgePaths(e, c, rs[..|rs| - 1], ctx), JudgePath(e, c, rs[|rs| - 1], ctx));
      ThenWeighs(JudgePaths(e, d, rs[..|rs| - 1], ctx), JudgePath(e, d, rs[|rs| - 1], ctx));
    }
  }

  lemma FindingWeighs(e: Engine, c: Command, f: Finding, ctx: Context)
    ensures Weight(Judge(e, c, f, ctx)) == FindingWeight(e, c.cwd, f, ctx)
  {
    hide JudgePaths, ByAttribution;
    var d := Command(c.cwd, "", "", [], false);
    PathsWeigh(e, c, d, f.paths, ctx);
    assert Weight(ByCategory(e, c, f, ctx)) == Weight(ByCategory(e, d, f, ctx));
    assert Weight(ByGit(e, c, f)) == Weight(ByGit(e, d, f));
    assert Weight(ByGh(c, f)) == Weight(ByGh(d, f));
  }

  /** The heaviest of the findings, in no particular order. */
  ghost predicate IsHeaviest(e: Engine, cwd: Path, fs: seq<Finding>, ctx: Context, w: nat) {
    && (forall i :: 0 <= i < |fs| ==> FindingWeight(e, cwd, fs[i], ctx) <= w)
    && (w > 0 ==> exists i :: 0 <= i < |fs| && FindingWeight(e, cwd, fs[i], ctx) == w)
  }

  lemma {:induction false} AllWeigh(e: Engine, c: Command, fs: seq<Finding>, ctx: Context)
    ensures IsHeaviest(e, c.cwd, fs, ctx, Weight(JudgeAll(e, c, fs, ctx)))
  {
    hide Judge, FindingWeight;
    if fs != [] {
      var (front, f) := (fs[..|fs| - 1], fs[|fs| - 1]);
      AllWeigh(e, c, front, ctx);
      FindingWeighs(e, c, f, ctx);
      ThenWeighs(JudgeAll(e, c, front, ctx), Judge(e, c, f, ctx));
      var (a, b) := (Weight(JudgeAll(e, c, front, ctx)), FindingWeight(e, c.cwd, f, ctx));
      if a > b {
        var i :| 0 <= i < |front| && FindingWeight(e, c.cwd, front[i], ctx) == a;
        assert fs[i] == front[i];
      } else {
        assert fs[|fs| - 1] == f;
      }
    }
  }

  lemma HeaviestOfBoth(e: Engine, cwd: Path, fs: seq<Finding>, gs: seq<Finding>, ctx: Context, a: nat, b: nat, w: nat)
    requires IsHeaviest(e, cwd, fs, ctx, a) && IsHeaviest(e, cwd, gs, ctx, b) && IsHeaviest(e, cwd, fs + gs, ctx, w)
    ensures w == Max(a, b)
  {
    hide FindingWeight;
    if a > 0 {
      var i :| 0 <= i < |fs| && FindingWeight(e, cwd, fs[i], ctx) == a;
      assert (fs + gs)[i] == fs[i];
    }
    if b > 0 {
      var i :| 0 <= i < |gs| && FindingWeight(e, cwd, gs[i], ctx) == b;
      assert (fs + gs)[|fs| + i] == gs[i];
    }
  }

  lemma HeaviestIsOfTheSet(e: Engine, cwd: Path, fs: seq<Finding>, gs: seq<Finding>, ctx: Context, a: nat, b: nat)
    requires forall f :: f in gs ==> f in fs
    requires IsHeaviest(e, cwd, fs, ctx, a) && IsHeaviest(e, cwd, gs, ctx, b)
    ensures b <= a
  {
    hide FindingWeight;
    if b > 0 {
      var i :| 0 <= i < |gs| && FindingWeight(e, cwd, gs[i], ctx) == b;
      assert gs[i] in fs;
    }
  }

  function TailWeight(trusted: bool, parseErrors: bool, dynamic: bool): nat {
    if !trusted && (parseErrors || dynamic) then 1 else 0
  }

  /** Without grants, the decision is as severe as its heaviest part. */
  lemma SeverityIsWeight(e: Engine, c: Command, ctx: Context)
    requires ctx.grants == [] && Gatekept(e, c).None?
    ensures Severity(Evaluate(e, c, ctx)) ==
            Max(Weight(JudgeAll(e, c, c.findings, ctx)),
                TailWeight(CwdTrusted(e, c.cwd, ctx), c.parseErrors, AnyDynamic(c.findings)))
  {
    hide JudgeAll, AnyDynamic, ByRisk, Combine;
    var v := Gathered(e, c, ctx);
    ThenWeighs(JudgeAll(e, c, c.findings, ctx), Tail(e, c, ctx));
    if v.Passed? {
      NothingToSort(v.asks);
      assert v.asks != [] ==> !Granted(e, ctx, v.asks[0].scope);
    }
  }

  lemma GatekeptDecides(e: Engine, c: Command, ctx: Context)
    ensures Gatekept(e, c).Some? ==> Evaluate(e, c, ctx) == Gatekept(e, c).value
  {
  }

  /** Without session grants, joining two commands is exactly as severe as the severer of them. */
  lemma SeverityIsAMaximum(e: Engine, a: Command, b: Command, c: Command, ctx: Context)
    requires ctx.grants == [] && a.cwd == b.cwd == c.cwd
    requires c.findings == a.findings + b.findings && c.parseErrors == (a.parseErrors || b.parseErrors)
    ensures Severity(Evaluate(e, c, ctx)) == Max(Severity(Evaluate(e, a, ctx)), Severity(Evaluate(e, b, ctx)))
  {
    hide JudgeAll, Evaluate, IsHeaviest, CwdTrusted, AnyDynamic;
    GatekeptDecides(e, a, ctx);
    GatekeptDecides(e, b, ctx);
    GatekeptDecides(e, c, ctx);
    if Gatekept(e, c).None? {
      SeverityIsWeight(e, a, ctx);
      SeverityIsWeight(e, b, ctx);
      SeverityIsWeight(e, c, ctx);
      AllWeigh(e, a, a.findings, ctx);
      AllWeigh(e, b, b.findings, ctx);
      AllWeigh(e, c, c.findings, ctx);
      HeaviestOfBoth(e, c.cwd, a.findings, b.findings, ctx,
        Weight(JudgeAll(e, a, a.findings, ctx)), Weight(JudgeAll(e, b, b.findings, ctx)),
        Weight(JudgeAll(e, c, c.findings, ctx)));
      DynamicOfBoth(a.findings, b.findings);
    }
  }

  lemma DynamicOfBoth(fs: seq<Finding>, gs: seq<Finding>)
    ensures AnyDynamic(fs + gs) == (AnyDynamic(fs) || AnyDynamic(gs))
  {
    if AnyDynamic(fs) {
      var i :| 0 <= i < |fs| && fs[i].category == Dynamic;
      assert (fs + gs)[i] == fs[i];
    }
    if AnyDynamic(gs) {
      var i :| 0 <= i < |gs| && gs[i].category == Dynamic;
      assert (fs + gs)[|fs| + i] == gs[i];
    }
  }

  /** Nor does the order of the findings matter, or whether one is repeated. */
  lemma SeverityIgnoresOrder(e: Engine, a: Command, b: Command, ctx: Context)
    requires ctx.grants == [] && a.cwd == b.cwd && a.parseErrors == b.parseErrors
    requires forall f :: f in a.findings <==> f in b.findings
    ensures Severity(Evaluate(e, a, ctx)) == Severity(Evaluate(e, b, ctx))
  {
    hide JudgeAll, Evaluate, IsHeaviest, CwdTrusted, AnyDynamic;
    GatekeptDecides(e, a, ctx);
    GatekeptDecides(e, b, ctx);
    if Gatekept(e, a).None? {
      SeverityIsWeight(e, a, ctx);
      SeverityIsWeight(e, b, ctx);
      AllWeigh(e, a, a.findings, ctx);
      AllWeigh(e, b, b.findings, ctx);
      var (v, w) := (Weight(JudgeAll(e, a, a.findings, ctx)), Weight(JudgeAll(e, b, b.findings, ctx)));
      HeaviestIsOfTheSet(e, a.cwd, a.findings, b.findings, ctx, v, w);
      HeaviestIsOfTheSet(e, a.cwd, b.findings, a.findings, ctx, w, v);
      DynamicOfTheSet(a.findings, b.findings);
      DynamicOfTheSet(b.findings, a.findings);
    }
  }

  lemma DynamicOfTheSet(fs: seq<Finding>, gs: seq<Finding>)
    requires forall f :: f in gs ==> f in fs
    ensures AnyDynamic(gs) ==> AnyDynamic(fs)
  {
    if AnyDynamic(gs) {
      var i :| 0 <= i < |gs| && gs[i].category == Dynamic;
      assert gs[i] in fs;
    }
  }

  // ------------------------------------------------------------ what a session approval changes

  function With(ctx: Context, s: Scope): Context {
    ctx.(grants := ctx.grants + [s])
  }

  lemma GrantedWith(e: Engine, ctx: Context, s: Scope, t: Scope)
    ensures Granted(e, With(ctx, s), t) <==> Granted(e, ctx, t) || Covers(e.fold, s, t)
  {
    var gs := With(ctx, s).grants;
    assert gs[|ctx.grants|] == s;
    assert forall i :: 0 <= i < |ctx.grants| ==> gs[i] == ctx.grants[i];
  }

  /** Approving a structured access for the session lets that very access through. */
  lemma FsApprovalSticks(e: Engine, p: Path, a: FsAccess, ctx: Context)
    requires EvaluateFs(e, p, a, ctx).RequireApproval?
    ensures EvaluateFs(e, p, a, With(ctx, EvaluateFs(e, p, a, ctx).requirement.scope)) == Allow([BySession])
  {
    GrantedWith(e, ctx, FsScope(p, a), FsScope(p, a));
    CoversIsAPreorder(e.fold, FsScope(p, a), FsScope(p, a), FsScope(p, a));
  }

  lemma FsIgnoresExactGrant(e: Engine, p: Path, a: FsAccess, ctx: Context, key: string)
    ensures EvaluateFs(e, p, a, With(ctx, Exact(key))) == EvaluateFs(e, p, a, ctx)
  {
    GrantedWith(e, ctx, Exact(key), FsScope(p, a));
  }

  lemma {:induction false} PathsIgnoreExactGrant(e: Engine, c: Command, rs: seq<PathRef>, ctx: Context, key: string)
    ensures JudgePaths(e, c, rs, With(ctx, Exact(key))) == JudgePaths(e, c, rs, ctx)
  {
    hide EvaluateFs;
    if rs != [] {
      PathsIgnoreExactGrant(e, c, rs[..|rs| - 1], ctx, key);
      var r := rs[|rs| - 1];
      if r.resolved.Some? {
        FsIgnoresExactGrant(e, r.resolved.value, Delete, ctx, key);
        FsIgnoresExactGrant(e, r.resolved.value, Write, ctx, key);
      }
    }
  }

  lemma {:induction false} AllIgnoreExactGrant(e: Engine, c: Command, fs: seq<Finding>, ctx: Context, key: string)
    ensures JudgeAll(e, c, fs, With(ctx, Exact(key))) == JudgeAll(e, c, fs, ctx)
  {
    hide JudgePaths, ByAttribution, ByGit, ByGh;
    if fs != [] {
      var f := fs[|fs| - 1];
      AllIgnoreExactGrant(e, c, fs[..|fs| - 1], ctx, key);
      PathsIgnoreExactGrant(e, c, f.paths, ctx, key);
      assert ByCategory(e, c, f, With(ctx, Exact(key))) == ByCategory(e, c, f, ctx);
    }
  }

  lemma GatheredIgnoresExactGrant(e: Engine, c: Command, ctx: Context, key: string)
    ensures Gathered(e, c, With(ctx, Exact(key))) == Gathered(e, c, ctx)
  {
    hide JudgeAll, AnyDynamic;
    AllIgnoreExactGrant(e, c, c.findings, ctx, key);
  }

  /** Approving a command for the session binds an exact key and lets that very command through. */
  lemma CommandApprovalSticks(e: Engine, c: Command, ctx: Context)
    requires Evaluate(e, c, ctx).RequireApproval?
    ensures var s := Evaluate(e, c, ctx).requirement.scope;
            s.Exact? && Evaluate(e, c, With(ctx, s)).Allow?
  {
    hide Gathered, ByRisk, Combine, Granted;
    var v := Gathered(e, c, ctx);
    NothingToSort(v.asks);
    CombinedCarriesAll(c, v.asks);
    var s := Combine(c, v.asks).scope;
    GatheredIgnoresExactGrant(e, c, ctx, s.key);
    GrantedWith(e, ctx, s, s);
  }

  function GitKeys(e: Engine, fs: seq<Finding>): set<string> {
    set i | 0 <= i < |fs| && fs[i].git.Some? && e.git(fs[i].git.value).GitAsk? && e.git(fs[i].git.value).key.Some? ::
      e.git(fs[i].git.value).key.value
  }

  predicate Keyed(v: Verdict, keys: set<string>) {
    v.Passed? ==> forall a :: a in v.asks ==> a.scope.PathPrefix? || a.scope.key in keys
  }

  lemma ThenKeyed(v: Verdict, w: Verdict, keys: set<string>)
    requires Keyed(v, keys) && Keyed(w, keys)
    ensures Keyed(AndThen(v, w), keys)
  {
  }

  lemma {:induction false} PathsKeyed(e: Engine, c: Command, rs: seq<PathRef>, ctx: Context, keys: set<string>)
    ensures Keyed(JudgePaths(e, c, rs, ctx), keys)
  {
    if rs != [] {
      PathsKeyed(e, c, rs[..|rs| - 1], ctx, keys);
      assert Keyed(JudgePath(e, c, rs[|rs| - 1], ctx), keys);
      ThenKeyed(JudgePaths(e, c, rs[..|rs| - 1], ctx), JudgePath(e, c, rs[|rs| - 1], ctx), keys);
    }
  }

  lemma FindingKeyed(e: Engine, c: Command, f: Finding, ctx: Context, keys: set<string>)
    requires c.key in keys && GitKeys(e, [f]) <= keys
    ensures Keyed(Judge(e, c, f, ctx), keys)
  {
    hide JudgePaths, ByAttribution;
    var (v1, v2, v3, v4) := (ByCategory(e, c, f, ctx), ByAttribution(e, f), ByGit(e, c, f), ByGh(c, f));
    assert Keyed(v1, keys) && Keyed(v4, keys);
    NothingIsKeyed(e, f, keys);
    assert [f][0] == f;
    assert Keyed(v3, keys);
    PathsKeyed(e, c, f.paths, ctx, keys);
    ThenKeyed(v1, v2, keys);
    ThenKeyed(AndThen(v1, v2), v3, keys);
    ThenKeyed(AndThen(AndThen(v1, v2), v3), v4, keys);
    ThenKeyed(AndThen(AndThen(AndThen(v1, v2), v3), v4), JudgePaths(e, c, f.paths, ctx), keys);
  }

  lemma NothingIsKeyed(e: Engine, f: Finding, keys: set<string>)
    ensures Keyed(ByAttribution(e, f), keys)
  {
  }

  lemma {:induction false} AllKeyed(e: Engine, c: Command, fs: seq<Finding>, ctx: Context, keys: set<string>)
    requires c.key in keys && GitKeys(e, fs) <= keys
    ensures Keyed(JudgeAll(e, c, fs, ctx), keys)
  {
    hide Judge, Keyed;
    if fs != [] {
      var (front, f) := (fs[..|fs| - 1], fs[|fs| - 1]);
      assert forall i :: 0 <= i < |front| ==> front[i] == fs[i];
      assert GitKeys(e, front) <= GitKeys(e, fs) && GitKeys(e, [f]) <= GitKeys(e, fs);
      AllKeyed(e, c, front, ctx, keys);
      FindingKeyed(e, c, f, ctx, keys);
      ThenKeyed(JudgeAll(e, c, front, ctx), Judge(e, c, f, ctx), keys);
    } else {
      NoAsksAreKeyed(keys);
    }
  }

  lemma NoAsksAreKeyed(keys: set<string>)
    ensures Keyed(Nothing, keys)
  {
  }

  lemma GatheredKeyed(e: Engine, c: Command, ctx: Context)
    ensures Keyed(Gathered(e, c, ctx), {c.key} + GitKeys(e, c.findings))
  {
    hide JudgeAll, AnyDynamic, GitKeys;
    var keys := {c.key} + GitKeys(e, c.findings);
    AllKeyed(e, c, c.findings, ctx, keys);
    assert Keyed(Tail(e, c, ctx), keys);
    ThenKeyed(JudgeAll(e, c, c.findings, ctx), Tail(e, c, ctx), keys);
  }

  /** Approving one command for the session changes nothing for a command with another key, unless that one
      has a Git requirement with the approved key. */
  lemma ApprovalIsConfined(e: Engine, c: Command, ctx: Context, key: string)
    requires key != c.key && key !in GitKeys(e, c.findings)
    ensures Evaluate(e, c, With(ctx, Exact(key))) == Evaluate(e, c, ctx)
  {
    hide Gathered, ByRisk, Granted, AllReasons, AllPaths, Dedup, GitKeys;
    var v := Gathered(e, c, ctx);
    GatheredIgnoresExactGrant(e, c, ctx, key);
    GatheredKeyed(e, c, ctx);
    if v.Passed? {
      NothingToSort(v.asks);
      forall i | 0 <= i < |v.asks|
        ensures Granted(e, With(ctx, Exact(key)), v.asks[i].scope) == Granted(e, ctx, v.asks[i].scope)
      {
        assert v.asks[i] in v.asks;
        GrantedWith(e, ctx, Exact(key), v.asks[i].scope);
      }
      if v.asks != [] {
        FirstIsRiskiest(v.asks, v.asks[0]);
        GrantedWith(e, ctx, Exact(key), Combine(c, v.asks).scope);
      }
    }
  }

  // ------------------------------------------------------------ the evaluator's loops

  method AnyMatch(ss: seq<string>, p: string -> bool) returns (hit: bool)
    ensures hit <==> exists i :: 0 <= i < |ss| && p(ss[i])
  {
    for i := 0 to |ss|
      invariant forall k :: 0 <= k < i ==> !p(ss[k])
    {
      if p(ss[i]) {
        return true;
      }
    }
    hit := false;
  }

  method CheckAttribution(e: Engine, f: Finding) returns (hit: bool)
    ensures hit == Discloses(e, f)
  {
    hit := AnyMatch(f.texts, e.attributed);
    if hit {
      return;
    }
    hit := AnyMatch(f.refs, e.refDiscloses);
    if hit {
      return;
    }
    hit := AnyMatch(f.identities, e.identityDiscloses);
  }

  method JudgeRefs(e: Engine, c: Command, rs: seq<PathRef>, ctx: Context) returns (v: Verdict)
    ensures v == JudgePaths(e, c, rs, ctx)
  {
    hide JudgePath;
    v := Nothing;
    for i := 0 to |rs|
      invariant v.Passed? && v == JudgePaths(e, c, rs[..i], ctx)
    {
      assert rs[..i + 1][..i] == rs[..i];
      var w := JudgePath(e, c, rs[i], ctx);
      if w.Denied? {
        DeniedLater(e, c, rs, ctx, i);
        return w;
      }
      v := Passed(v.warnings + w.warnings, v.asks + w.asks);
    }
    assert rs[..|rs|] == rs;
  }

  method JudgeFinding(e: Engine, c: Command, f: Finding, ctx: Context) returns (v: Verdict)
    ensures v == Judge(e, c, f, ctx)
  {
    hide JudgePaths, ByCategory, ByGit, ByGh, Discloses;
    v := ByCategory(e, c, f, ctx);
    if v.Denied? {
      return;
    }
    var hit := CheckAttribution(e, f);
    if hit {
      return Denied(AttributionBlocked);
    }
    assert AndThen(v, ByAttribution(e, f)) == v;
    v := AndThen(AndThen(v, ByGit(e, c, f)), ByGh(c, f));
    if v.Denied? {
      return;
    }
    var w := JudgeRefs(e, c, f.paths, ctx);
    v := AndThen(v, w);
  }

  lemma {:induction false} DeniedLater(e: Engine, c: Command, rs: seq<PathRef>, ctx: Context, i: nat)
    requires i < |rs| && JudgePaths(e, c, rs[..i], ctx).Passed? && JudgePath(e, c, rs[i], ctx).Denied?
    ensures JudgePaths(e, c, rs, ctx) == JudgePath(e, c, rs[i], ctx)
    decreases |rs|
  {
    hide JudgePath;
    var front := rs[..|rs| - 1];
    if i < |front| {
      assert front[..i] == rs[..i];
      DeniedLater(e, c, front, ctx, i);
    } else {
      assert front == rs[..i];
    }
  }

  lemma {:induction false} FindingDeniedLater(e: Engine, c: Command, fs: seq<Finding>, ctx: Context, i: nat)
    requires i < |fs| && JudgeAll(e, c, fs[..i], ctx).Passed? && Judge(e, c, fs[i], ctx).Denied?
    ensures JudgeAll(e, c, fs, ctx) == Judge(e, c, fs[i], ctx)
    decreases |fs|
  {
    hide Judge;
    var front := fs[..|fs| - 1];
    if i < |front| {
      assert front[..i] == fs[..i];
      FindingDeniedLater(e, c, front, ctx, i);
    } else {
      assert front == fs[..i];
    }
  }

  /** The evaluation: gate checks, then the findings in order up to the first denial, then the combination. */
  method EvaluateCommand(e: Engine, c: Command, ctx: Context) returns (d: Decision)
    ensures d == Evaluate(e, c, ctx)
  {
    hide Judge, ByRisk, Combine, Granted, AllGranted;
    if e.classify(c.cwd) == ControlData {
      return Deny(PermissionDenied);
    }
    if e.guarded(c.cwd, true) {
      return Deny(ProtectedResource);
    }
    if e.configFault {
      return Deny(ConfigFault);
    }
    if !e.shellChecks {
      return Allow([ShellChecksOff]);
    }
    var warnings: seq<Warning>, asks: seq<Requirement>, dynamic := [], [], false;
    for i := 0 to |c.findings|
      invariant JudgeAll(e, c, c.findings[..i], ctx) == Passed(warnings, asks)
      invariant dynamic == AnyDynamic(c.findings[..i])
    {
      assert c.findings[..i + 1][..i] == c.findings[..i];
      assert c.findings[..i + 1] == c.findings[..i] + [c.findings[i]];
      DynamicOfBoth(c.findings[..i], [c.findings[i]]);
      OneDynamic(c.findings[i]);
      var v := JudgeFinding(e, c, c.findings[i], ctx);
      if v.Denied? {
        FindingDeniedLater(e, c, c.findings, ctx, i);
        return Deny(v.code);
      }
      warnings, asks := warnings + v.warnings, asks + v.asks;
      dynamic := dynamic || c.findings[i].category == Dynamic;
    }
    assert c.findings[..|c.findings|] == c.findings;
    var trusted := CwdTrusted(e, c.cwd, ctx);
    ghost var before := Passed(warnings, asks);
    var external :=
        Requirement("unknown_external", ["could not be parsed"], Medium, [c.cwd], Some(c.text), Exact(c.key));
    if c.parseErrors {
      warnings := warnings + [NotParsed];
      if !trusted {
        asks := asks + [external];
      }
    }
    if dynamic && !trusted {
      asks := asks + [external.(reasons := ["dynamic execution"])];
    }
    TailAppends(e, c, ctx, before);
    assert Gathered(e, c, ctx) == Passed(warnings, asks);
    NothingToSort(asks);
    if asks == [] {
      return Allow(warnings);
    }
    var combined := Combine(c, asks);
    if Granted(e, ctx, combined.scope) || AllGranted(e, ctx, asks) {
      return Allow(warnings + [BySession]);
    }
    d := RequireApproval(combined);
  }

  lemma OneDynamic(f: Finding)
    ensures AnyDynamic([f]) <==> f.category == Dynamic
  {
    assert [f][0] == f;
  }

  /** What the tail adds to the judgements of the findings. */
  lemma TailAppends(e: Engine, c: Command, ctx: Context, v: Verdict)
    requires v.Passed? && v == JudgeAll(e, c, c.findings, ctx)
    ensures
      var trusted := CwdTrusted(e, c.cwd, ctx);
      var q := Requirement("unknown_external", ["could not be parsed"], Medium, [c.cwd], Some(c.text), Exact(c.key));
      var parsed := if c.parseErrors && !trusted then [q] else [];
      var dynamic := if AnyDynamic(c.findings) && !trusted then [q.(reasons := ["dynamic execution"])] else [];
      Gathered(e, c, ctx) == Passed(v.warnings + (if c.parseErrors then [NotParsed] else []), v.asks + parsed + dynamic)
  {
    hide JudgeAll, AnyDynamic, CwdTrusted;
    assert v.asks + [] == v.asks;
  }
}
