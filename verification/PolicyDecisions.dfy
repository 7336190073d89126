/**
 When the policy evaluator denies, asks or allows, stated from the engine's
 parameters and what a command was found to do.
 */
module PolicyDecisions {
  import opened Wrappers
  import opened Paths
  import opened PolicyEvaluator

  // ------------------------------------------------------------ file accesses

  predicate Reads(a: FsAccess) {
    a == Metadata || a == List || a == Read
  }

  predicate Removes(a: FsAccess) {
    a == Delete || a == MoveSource
  }

  /** A cache or temp area that belongs to another task or client. */
  predicate Foreign(e: Engine, p: Path, ctx: Context) {
    match e.classify(p)
    case CacheTemp(Task(t)) => !ctx.ownsTask(t)
    case CacheTemp(Tool(s)) => s != ctx.principal
    case CacheTemp(Other) => true
    case _ => false
  }

  /** A guarded path may be inspected, and mutated where that is excepted. */
  predicate Shielded(e: Engine, p: Path, a: FsAccess) {
    if Reads(a) then e.guarded(p, true) && a != Metadata else e.guarded(p, false) && !e.excepted(p)
  }

  predicate Forbidden(e: Engine, p: Path, a: FsAccess, ctx: Context) {
    || (e.configFault && !Reads(a))
    || e.classify(p) == ControlData
    || Shielded(e, p, a)
    || Foreign(e, p, ctx)
  }

  /** A local grant contains the path, and covers removals if it is one. */
  ghost predicate LocalGrant(e: Engine, p: Path, a: FsAccess) {
    exists i :: 0 <= i < |e.externalGrants| && Lets(e, e.externalGrants[i], p, a)
  }

  predicate Lets(e: Engine, g: ExternalGrant, p: Path, a: FsAccess) {
    StartsWithCi(e.fold, p, g.prefix) && (Removes(a) ==> g.allowDelete)
  }

  /** A session grant of the same kind contains the directory of the path. */
  ghost predicate SessionGrant(e: Engine, p: Path, a: FsAccess, ctx: Context) {
    exists i :: 0 <= i < |ctx.grants| && Allows(e, ctx.grants[i], p, a)
  }

  predicate Allows(e: Engine, g: Scope, p: Path, a: FsAccess) {
    && g.PathPrefix? && (g.operation == Deletes <==> Removes(a))
    && StartsWithCi(e.fold, if p == [] then p else p[..|p| - 1], g.prefix)
  }

  ghost predicate NeedsConsent(e: Engine, p: Path, a: FsAccess, ctx: Context) {
    && !Forbidden(e, p, a, ctx) && e.classify(p) == External && !Reads(a)
    && !LocalGrant(e, p, a) && !SessionGrant(e, p, a, ctx)
  }

  lemma SessionGrantIs(e: Engine, p: Path, a: FsAccess, ctx: Context)
    requires !Reads(a)
    ensures Granted(e, ctx, FsScope(p, a)) <==> SessionGrant(e, p, a, ctx)
  {
    assert forall i :: 0 <= i < |ctx.grants| ==>
        (Covers(e.fold, ctx.grants[i], FsScope(p, a)) <==> Allows(e, ctx.grants[i], p, a));
  }

  lemma LocalGrantIs(e: Engine, p: Path, a: FsAccess)
    requires !Reads(a)
    ensures LocallyGranted(e, p, a) <==> LocalGrant(e, p, a)
  {
    if LocallyGranted(e, p, a) {
      var i :| 0 <= i < |e.externalGrants| && StartsWithCi(e.fold, p, e.externalGrants[i].prefix)
               && (e.externalGrants[i].allowDelete || ClassOf(a) == Writes);
      assert Lets(e, e.externalGrants[i], p, a);
    }
    if LocalGrant(e, p, a) {
      var i :| 0 <= i < |e.externalGrants| && Lets(e, e.externalGrants[i], p, a);
      assert StartsWithCi(e.fold, p, e.externalGrants[i].prefix);
    }
  }

  /** A structured access is denied exactly when it is forbidden, needs approval exactly when it mutates something
      external without any grant, and is allowed otherwise; the code tells the first cause. */
  lemma FsDecidesExactly(e: Engine, p: Path, a: FsAccess, ctx: Context)
    ensures
      var d := EvaluateFs(e, p, a, ctx);
      && (d.Deny? <==> Forbidden(e, p, a, ctx))
      && (d.RequireApproval? <==> NeedsConsent(e, p, a, ctx))
      && (d.Allow? <==> !Forbidden(e, p, a, ctx) && !NeedsConsent(e, p, a, ctx))
      && (d == Deny(ConfigFault) <==> e.configFault && !Reads(a))
      && (d == Deny(ProtectedResource) <==>
          !(e.configFault && !Reads(a)) && e.classify(p) != ControlData && Shielded(e, p, a))
      && d != Deny(AttributionBlocked)
      && var out := !Reads(a) && e.classify(p) == External;
         d.Allow? ==> d.warnings == if !out then [] else if LocalGrant(e, p, a) then [ByPolicyGrant] else [BySession]
  {
    if !Reads(a) {
      SessionGrantIs(e, p, a, ctx);
      LocalGrantIs(e, p, a);
    }
  }

  /** What is asked for: that very path, the higher risk for a removal, and a scope of that kind on its directory. */
  lemma FsAsksFor(e: Engine, p: Path, a: FsAccess, ctx: Context)
    requires EvaluateFs(e, p, a, ctx).RequireApproval?
    ensures
      var q := EvaluateFs(e, p, a, ctx).requirement;
      && q.paths == [p] && (q.risk == if Removes(a) then High else Medium)
      && q.scope == PathPrefix(if Removes(a) then Deletes else Writes, if p == [] then p else p[..|p| - 1])
  {
  }

  /** A local grant without deletion never lets a removal through. */
  lemma NoRemovalWithoutGrant(e: Engine, p: Path, a: FsAccess, ctx: Context)
    requires Removes(a) && e.classify(p) == External && !SessionGrant(e, p, a, ctx)
    requires forall i :: 0 <= i < |e.externalGrants| && StartsWithCi(e.fold, p, e.externalGrants[i].prefix) ==>
               !e.externalGrants[i].allowDelete
    ensures !EvaluateFs(e, p, a, ctx).Allow?
  {
    FsDecidesExactly(e, p, a, ctx);
  }

  // ------------------------------------------------------------ findings

  /** A reference in a command that may not be made. */
  predicate BadRef(e: Engine, r: PathRef, ctx: Context) {
    r.resolved.Some? &&
    var p := r.resolved.value;
    || (e.classify(p) == ControlData && r.access != RefRead)
    || (r.access == RefReadDisclose && e.guarded(p, true))
    || ((r.access == RefWrite || r.access == RefDelete) && e.guarded(p, false))
    || (r.access == RefWrite && Forbidden(e, p, Write, ctx))
    || (r.access == RefDelete && Forbidden(e, p, Delete, ctx))
  }

  ghost predicate AsksRef(e: Engine, r: PathRef, ctx: Context) {
    r.resolved.Some? &&
    var p := r.resolved.value;
    || (r.access == RefWrite && NeedsConsent(e, p, Write, ctx))
    || (r.access == RefDelete && NeedsConsent(e, p, Delete, ctx))
  }

  ghost predicate SaysTooMuch(e: Engine, f: Finding) {
    || (exists i :: 0 <= i < |f.texts| && e.attributed(f.texts[i]))
    || (exists i :: 0 <= i < |f.refs| && e.refDiscloses(f.refs[i]))
    || (exists i :: 0 <= i < |f.identities| && e.identityDiscloses(f.identities[i]))
  }

  /** A finding that alone forbids the command. */
  ghost predicate BadFinding(e: Engine, f: Finding, ctx: Context) {
    || f.category == CredentialAccess || f.category == Admin
    || (f.category == PackageGlobal && e.installPolicy == InstallDeny)
    || SaysTooMuch(e, f)
    || (f.git.Some? && e.git(f.git.value).GitDeny?)
    || (exists i :: 0 <= i < |f.paths| && BadRef(e, f.paths[i], ctx))
  }

  /** A finding that needs approval. */
  ghost predicate AsksFinding(e: Engine, f: Finding, trusted: bool, ctx: Context) {
    || f.category == SystemChange || f.ghDestructive
    || (f.category == PackageGlobal && e.installPolicy == InstallAsk)
    || (!trusted && (f.category == PackageLocal || (f.category == Unknown && !f.onlyReads)))
    || (f.git.Some? && e.git(f.git.value).GitAsk?)
    || (exists i :: 0 <= i < |f.paths| && AsksRef(e, f.paths[i], ctx))
  }

  lemma PathWeighs(e: Engine, c: Command, r: PathRef, ctx: Context)
    ensures JudgePath(e, c, r, ctx).Denied? <==> BadRef(e, r, ctx)
    ensures !BadRef(e, r, ctx) ==> (JudgePath(e, c, r, ctx).asks != [] <==> AsksRef(e, r, ctx))
  {
    hide EvaluateFs, Forbidden, NeedsConsent;
    if r.resolved.Some? {
      FsDecidesExactly(e, r.resolved.value, Write, ctx);
      FsDecidesExactly(e, r.resolved.value, Delete, ctx);
      ForbiddenIs(e, r.resolved.value, Write, ctx);
      ForbiddenIs(e, r.resolved.value, Delete, ctx);
    }
  }

  lemma ForbiddenIs(e: Engine, p: Path, a: FsAccess, ctx: Context)
    ensures NeedsConsent(e, p, a, ctx) ==> !Forbidden(e, p, a, ctx)
    ensures e.classify(p) == ControlData ==> Forbidden(e, p, a, ctx)
  {
  }

  lemma {:induction false} PathsWeighExactly(e: Engine, c: Command, rs: seq<PathRef>, ctx: Context)
    ensures JudgePaths(e, c, rs, ctx).Denied? <==> exists i :: 0 <= i < |rs| && BadRef(e, rs[i], ctx)
    ensures JudgePaths(e, c, rs, ctx).Passed? ==>
              (JudgePaths(e, c, rs, ctx).asks != [] <==> exists i :: 0 <= i < |rs| && AsksRef(e, rs[i], ctx))
  {
    hide JudgePath, BadRef, AsksRef;
    if rs != [] {
      var (front, last) := (rs[..|rs| - 1], rs[|rs| - 1]);
      PathsWeighExactly(e, c, front, ctx);
      PathWeighs(e, c, last, ctx);
      assert forall i :: 0 <= i < |front| ==> rs[i] == front[i];
      assert rs[|rs| - 1] == last;
    }
  }

  lemma FindingWeighsExactly(e: Engine, c: Command, f: Finding, ctx: Context)
    ensures Judge(e, c, f, ctx).Denied? <==> BadFinding(e, f, ctx)
    ensures Judge(e, c, f, ctx).Passed? ==>
              (Judge(e, c, f, ctx).asks != [] <==> AsksFinding(e, f, CwdTrusted(e, c.cwd, ctx), ctx))
  {
    hide JudgePaths, BadRef, AsksRef, CwdTrusted;
    PathsWeighExactly(e, c, f.paths, ctx);
    assert Discloses(e, f) <==> SaysTooMuch(e, f);
  }

  lemma {:induction false} AllWeighExactly(e: Engine, c: Command, fs: seq<Finding>, ctx: Context)
    ensures JudgeAll(e, c, fs, ctx).Denied? <==> exists i :: 0 <= i < |fs| && BadFinding(e, fs[i], ctx)
    ensures JudgeAll(e, c, fs, ctx).Passed? ==>
              (JudgeAll(e, c, fs, ctx).asks != [] <==>
               exists i :: 0 <= i < |fs| && AsksFinding(e, fs[i], CwdTrusted(e, c.cwd, ctx), ctx))
  {
    hide Judge, BadFinding, AsksFinding, CwdTrusted;
    if fs != [] {
      var (front, last) := (fs[..|fs| - 1], fs[|fs| - 1]);
      AllWeighExactly(e, c, front, ctx);
      FindingWeighsExactly(e, c, last, ctx);
      assert forall i :: 0 <= i < |front| ==> fs[i] == front[i];
      assert fs[|fs| - 1] == last;
    }
  }

  // ------------------------------------------------------------ commands

  /** The working directory is checked first, and the switch only skips what comes after. */
  lemma GateDecides(e: Engine, c: Command, ctx: Context)
    ensures e.classify(c.cwd) == ControlData ==> Evaluate(e, c, ctx) == Deny(PermissionDenied)
    ensures e.classify(c.cwd) != ControlData && e.guarded(c.cwd, true) ==>
              Evaluate(e, c, ctx) == Deny(ProtectedResource)
    ensures e.configFault ==> Evaluate(e, c, ctx).Deny?
    ensures e.classify(c.cwd) != ControlData && !e.guarded(c.cwd, true) && !e.configFault && !e.shellChecks ==>
              Evaluate(e, c, ctx) == Allow([ShellChecksOff])
  {
  }

  /** The command reaches the judgement of its findings. */
  predicate Checked(e: Engine, c: Command) {
    e.classify(c.cwd) != ControlData && !e.guarded(c.cwd, true) && !e.configFault && e.shellChecks
  }

  /** The directory is trusted, or belongs to a task of the caller. */
  predicate AtHome(e: Engine, cwd: Path, ctx: Context) {
    match e.classify(cwd)
    case Trusted => true
    case CacheTemp(Task(t)) => ctx.ownsTask(t)
    case _ => false
  }

  ghost predicate AsksCommand(e: Engine, c: Command, ctx: Context) {
    || (exists i :: 0 <= i < |c.findings| && AsksFinding(e, c.findings[i], AtHome(e, c.cwd, ctx), ctx))
    || (!AtHome(e, c.cwd, ctx) && c.parseErrors)
    || (!AtHome(e, c.cwd, ctx) && exists i :: 0 <= i < |c.findings| && c.findings[i].category == Dynamic)
  }

  /** Under shell checks a command is denied exactly for a forbidden finding, whatever has been granted. */
  lemma CommandDeniedExactly(e: Engine, c: Command, ctx: Context)
    requires Checked(e, c)
    ensures Evaluate(e, c, ctx).Deny? <==> exists i :: 0 <= i < |c.findings| && BadFinding(e, c.findings[i], ctx)
  {
    hide JudgeAll, BadFinding, ByRisk, Combine, AnyDynamic, AsksFinding;
    AllWeighExactly(e, c, c.findings, ctx);
  }

  /** And it needs approval without grants exactly if it is not denied and something in it asks for one. */
  lemma CommandAsksExactly(e: Engine, c: Command, ctx: Context)
    requires Checked(e, c) && ctx.grants == []
    ensures Evaluate(e, c, ctx).RequireApproval? <==> !Evaluate(e, c, ctx).Deny? && AsksCommand(e, c, ctx)
  {
    hide JudgeAll, BadFinding, AsksFinding, Evaluate, AnyDynamic;
    AllWeighExactly(e, c, c.findings, ctx);
    SeverityIsWeight(e, c, ctx);
    assert CwdTrusted(e, c.cwd, ctx) == AtHome(e, c.cwd, ctx);
    DynamicIs(c.findings);
  }

  lemma DynamicIs(fs: seq<Finding>)
    ensures AnyDynamic(fs) <==> exists i :: 0 <= i < |fs| && fs[i].category == Dynamic
  {
  }

  // ------------------------------------------------------------ what an approval says

  /** Something in a finding makes the risk high. */
  ghost predicate HighFinding(e: Engine, f: Finding, ctx: Context) {
    || f.category == SystemChange || f.ghDestructive
    || (f.git.Some? && e.git(f.git.value).GitAsk? && Rank(e.git(f.git.value).risk) >= 2)
    || (exists i :: 0 <= i < |f.paths| && HighRef(e, f.paths[i], ctx))
  }

  ghost predicate HighRef(e: Engine, r: PathRef, ctx: Context) {
    r.resolved.Some? && r.access == RefDelete && NeedsConsent(e, r.resolved.value, Delete, ctx)
  }

  ghost predicate AnyHigh(v: Verdict) {
    v.Passed? && exists i :: 0 <= i < |v.asks| && Rank(v.asks[i].risk) >= 2
  }

  lemma ThenHigh(v: Verdict, w: Verdict)
    requires AndThen(v, w).Passed?
    ensures AnyHigh(AndThen(v, w)) <==> AnyHigh(v) || AnyHigh(w)
  {
    var asks := v.asks + w.asks;
    assert forall i :: 0 <= i < |v.asks| ==> asks[i] == v.asks[i];
    assert forall i :: 0 <= i < |w.asks| ==> asks[|v.asks| + i] == w.asks[i];
    if AnyHigh(AndThen(v, w)) {
      var i :| 0 <= i < |asks| && Rank(asks[i].risk) >= 2;
      assert i >= |v.asks| ==> w.asks[i - |v.asks|] == asks[i];
    }
  }

  lemma PathHigh(e: Engine, c: Command, r: PathRef, ctx: Context)
    requires JudgePath(e, c, r, ctx).Passed?
    ensures AnyHigh(JudgePath(e, c, r, ctx)) <==> HighRef(e, r, ctx)
  {
    hide EvaluateFs, NeedsConsent, Forbidden;
    if r.resolved.Some? {
      var p := r.resolved.value;
      FsDecidesExactly(e, p, Write, ctx);
      FsDecidesExactly(e, p, Delete, ctx);
      var a := if r.access.RefDelete? then Delete else Write;
      if EvaluateFs(e, p, a, ctx).RequireApproval? {
        FsAsksFor(e, p, a, ctx);
        var asks := JudgePath(e, c, r, ctx).asks;
        assert asks != [] ==> asks[0].risk == if r.access.RefDelete? then High else Medium;
      }
    }
  }

  lemma {:induction false} PathsHigh(e: Engine, c: Command, rs: seq<PathRef>, ctx: Context)
    requires JudgePaths(e, c, rs, ctx).Passed?
    ensures AnyHigh(JudgePaths(e, c, rs, ctx)) <==> exists i :: 0 <= i < |rs| && HighRef(e, rs[i], ctx)
  {
    hide JudgePath, HighRef, AnyHigh;
    if rs == [] {
      NothingHigh();
    } else {
      var (front, last) := (rs[..|rs| - 1], rs[|rs| - 1]);
      PathsHigh(e, c, front, ctx);
      PathHigh(e, c, last, ctx);
      ThenHigh(JudgePaths(e, c, front, ctx), JudgePath(e, c, last, ctx));
      assert forall i :: 0 <= i < |front| ==> rs[i] == front[i];
      assert rs[|rs| - 1] == last;
    }
  }

  lemma NothingHigh()
    ensures !AnyHigh(Nothing)
  {
  }

  lemma OneHigh(v: Verdict)
    requires v.Passed? && |v.asks| <= 1
    ensures AnyHigh(v) <==> |v.asks| == 1 && Rank(v.asks[0].risk) >= 2
  {
  }

  lemma FindingHigh(e: Engine, c: Command, f: Finding, ctx: Context)
    requires Judge(e, c, f, ctx).Passed?
    ensures AnyHigh(Judge(e, c, f, ctx)) <==> HighFinding(e, f, ctx)
  {
    hide JudgePaths, HighRef, AnyHigh, Discloses, CwdTrusted;
    var (v1, v2, v3, v4) := (ByCategory(e, c, f, ctx), ByAttribution(e, f), ByGit(e, c, f), ByGh(c, f));
    var v5 := JudgePaths(e, c, f.paths, ctx);
    PathsHigh(e, c, f.paths, ctx);
    OneHigh(v1);
    OneHigh(v2);
    OneHigh(v3);
    OneHigh(v4);
    ThenHigh(v1, v2);
    ThenHigh(AndThen(v1, v2), v3);
    ThenHigh(AndThen(AndThen(v1, v2), v3), v4);
    ThenHigh(AndThen(AndThen(AndThen(v1, v2), v3), v4), v5);
  }

  lemma {:induction false} AllHigh(e: Engine, c: Command, fs: seq<Finding>, ctx: Context)
    requires JudgeAll(e, c, fs, ctx).Passed?
    ensures AnyHigh(JudgeAll(e, c, fs, ctx)) <==> exists i :: 0 <= i < |fs| && HighFinding(e, fs[i], ctx)
  {
    hide Judge, HighFinding, AnyHigh;
    if fs == [] {
      NothingHigh();
    } else {
      var (front, last) := (fs[..|fs| - 1], fs[|fs| - 1]);
      AllHigh(e, c, front, ctx);
      FindingHigh(e, c, last, ctx);
      ThenHigh(JudgeAll(e, c, front, ctx), Judge(e, c, last, ctx));
      assert forall i :: 0 <= i < |front| ==> fs[i] == front[i];
      assert fs[|fs| - 1] == last;
    }
  }

  lemma TailIsNotHigh(e: Engine, c: Command, ctx: Context)
    ensures Tail(e, c, ctx).Passed? && !AnyHigh(Tail(e, c, ctx))
  {
    hide AnyDynamic, CwdTrusted;
  }

  /** The risk shown to the user is high exactly if a system change, a destructive GitHub action, a risky Git operation
      or a deletion outside the workspace is part of the command. */
  lemma RiskIsHighExactly(e: Engine, c: Command, ctx: Context)
    requires Checked(e, c) && Evaluate(e, c, ctx).RequireApproval?
    ensures Rank(Evaluate(e, c, ctx).requirement.risk) >= 2 <==>
            exists i :: 0 <= i < |c.findings| && HighFinding(e, c.findings[i], ctx)
  {
    hide JudgeAll, Tail, ByRisk, Combine, HighFinding, Granted;
    var v := Gathered(e, c, ctx);
    TailIsNotHigh(e, c, ctx);
    AllHigh(e, c, c.findings, ctx);
    ThenHigh(JudgeAll(e, c, c.findings, ctx), Tail(e, c, ctx));
    NothingToSort(v.asks);
    CombinedCarriesAll(c, v.asks);
    RiskOfAll(c, v.asks);
  }

  lemma RiskOfAll(c: Command, asks: seq<Requirement>)
    requires asks != [] && ByRisk(asks) != []
    ensures Rank(Combine(c, asks).risk) >= 2 <==> exists i :: 0 <= i < |asks| && Rank(asks[i].risk) >= 2
  {
    hide Combine, ByRisk;
    CombinedCarriesAll(c, asks);
    var a :| a in asks && a.risk == Combine(c, asks).risk;
    var j :| 0 <= j < |asks| && asks[j] == a;
  }

  /** Every path outside the workspace that the command wants to write or delete is shown. */
  lemma AskedPathsAreShown(e: Engine, c: Command, ctx: Context, i: nat, j: nat)
    requires Checked(e, c) && Evaluate(e, c, ctx).RequireApproval?
    requires i < |c.findings| && j < |c.findings[i].paths| && AsksRef(e, c.findings[i].paths[j], ctx)
    ensures c.findings[i].paths[j].resolved.value in Evaluate(e, c, ctx).requirement.paths
  {
    hide JudgeAll, Tail, ByRisk, Combine, AsksRef, Granted;
    var v := Gathered(e, c, ctx);
    NothingToSort(v.asks);
    CombinedCarriesAll(c, v.asks);
    ResolvedIs(e, c.findings[i].paths[j], ctx);
    var a := AskOfFinding(e, c, c.findings, i, j, ctx);
    assert a in v.asks;
  }

  lemma ResolvedIs(e: Engine, r: PathRef, ctx: Context)
    requires AsksRef(e, r, ctx)
    ensures r.resolved.Some?
  {
  }

  lemma {:induction false} AskOfPath(e: Engine, c: Command, rs: seq<PathRef>, j: nat, ctx: Context)
      returns (a: Requirement)
    requires j < |rs| && AsksRef(e, rs[j], ctx) && JudgePaths(e, c, rs, ctx).Passed?
    ensures a in JudgePaths(e, c, rs, ctx).asks && a.paths == [rs[j].resolved.value]
    decreases |rs|
  {
    hide EvaluateFs, NeedsConsent, Forbidden;
    var (front, last) := (rs[..|rs| - 1], rs[|rs| - 1]);
    if j < |front| {
      a := AskOfPath(e, c, front, j, ctx);
    } else {
      var p := last.resolved.value;
      FsDecidesExactly(e, p, Write, ctx);
      FsDecidesExactly(e, p, Delete, ctx);
      FsAsksFor(e, p, if last.access.RefDelete? then Delete else Write, ctx);
      a := JudgePath(e, c, last, ctx).asks[0];
    }
  }

  lemma {:induction false} AskOfFinding(e: Engine, c: Command, fs: seq<Finding>, i: nat, j: nat, ctx: Context)
      returns (a: Requirement)
    requires i < |fs| && j < |fs[i].paths| && AsksRef(e, fs[i].paths[j], ctx) && JudgeAll(e, c, fs, ctx).Passed?
    ensures AsksRef(e, fs[i].paths[j], ctx) && fs[i].paths[j].resolved.Some?
    ensures a in JudgeAll(e, c, fs, ctx).asks && a.paths == [fs[i].paths[j].resolved.value]
    decreases |fs|
  {
    hide JudgePaths, AsksRef, ByCategory, ByAttribution, ByGit, ByGh;
    var (front, last) := (fs[..|fs| - 1], fs[|fs| - 1]);
    ResolvedIs(e, fs[i].paths[j], ctx);
    if i < |front| {
      a := AskOfFinding(e, c, front, i, j, ctx);
    } else {
      a := AskOfPath(e, c, last.paths, j, ctx);
    }
  }

  /** The command runs away from home and does something that cannot be confined to the paths it names. */
  ghost predicate Roams(e: Engine, c: Command, ctx: Context) {
    !AtHome(e, c.cwd, ctx) && (c.parseErrors || exists i :: 0 <= i < |c.findings| && Roaming(c.findings[i]))
  }

  predicate Roaming(f: Finding) {
    f.category == PackageLocal || (f.category == Unknown && !f.onlyReads) || f.category == Dynamic
  }

  /** Then the working directory is shown. */
  lemma RoamingShowsDirectory(e: Engine, c: Command, ctx: Context)
    requires Checked(e, c) && Evaluate(e, c, ctx).RequireApproval? && Roams(e, c, ctx)
    ensures c.cwd in Evaluate(e, c, ctx).requirement.paths
  {
    hide JudgeAll, ByRisk, Combine, Granted;
    var v := Gathered(e, c, ctx);
    NothingToSort(v.asks);
    CombinedCarriesAll(c, v.asks);
    assert CwdTrusted(e, c.cwd, ctx) == AtHome(e, c.cwd, ctx);
    if c.parseErrors || exists i :: 0 <= i < |c.findings| && c.findings[i].category == Dynamic {
      DynamicIs(c.findings);
      var a := Tail(e, c, ctx).asks[0];
      assert a in Tail(e, c, ctx).asks && a.paths == [c.cwd];
      assert a in v.asks && c.cwd in a.paths;
    } else {
      var i :| 0 <= i < |c.findings| && Roaming(c.findings[i]);
      var a := AskOfRoaming(e, c, c.findings, i, ctx);
      assert a in v.asks && c.cwd in a.paths;
    }
  }

  lemma {:induction false} AskOfRoaming(e: Engine, c: Command, fs: seq<Finding>, i: nat, ctx: Context)
      returns (a: Requirement)
    requires i < |fs| && Roaming(fs[i]) && fs[i].category != Dynamic && !CwdTrusted(e, c.cwd, ctx)
    requires JudgeAll(e, c, fs, ctx).Passed?
    ensures a in JudgeAll(e, c, fs, ctx).asks && a.paths == [c.cwd]
    decreases |fs|
  {
    hide JudgePaths, ByAttribution, ByGit, ByGh, CwdTrusted;
    var (front, last) := (fs[..|fs| - 1], fs[|fs| - 1]);
    if i < |front| {
      a := AskOfRoaming(e, c, front, i, ctx);
    } else {
      a := ByCategory(e, c, last, ctx).asks[0];
    }
  }

  /** The first forbidden finding gives the code. */
  lemma FirstDenialSaysWhy(e: Engine, c: Command, ctx: Context, i: nat)
    requires Checked(e, c) && i < |c.findings| && BadFinding(e, c.findings[i], ctx)
    requires forall k :: 0 <= k < i ==> !BadFinding(e, c.findings[k], ctx)
    ensures
      var f := c.findings[i];
      var d := Evaluate(e, c, ctx);
      var barred := f.category == PackageGlobal && e.installPolicy == InstallDeny;
      var byCategory := f.category in {CredentialAccess, Admin} || barred;
      && (f.category == CredentialAccess ==> d == Deny(ProtectedResource))
      && (f.category == Admin ==> d == Deny(PermissionDenied))
      && (barred ==> d == Deny(PermissionDenied))
      && (!byCategory && SaysTooMuch(e, f) ==> d == Deny(AttributionBlocked))
      && (!byCategory && !SaysTooMuch(e, f) && f.git.Some? && e.git(f.git.value).GitDeny? ==>
            d == Deny(ProtectedResource))
  {
    hide JudgeAll, BadFinding, AsksFinding, JudgePaths, SaysTooMuch, Discloses, AnyDynamic, Combine, ByRisk;
    var f := c.findings[i];
    AllWeighExactly(e, c, c.findings[..i], ctx);
    FindingWeighsExactly(e, c, f, ctx);
    FindingDeniedLater(e, c, c.findings, ctx, i);
    SaysIs(e, f);
  }

  lemma SaysIs(e: Engine, f: Finding)
    ensures Discloses(e, f) <==> SaysTooMuch(e, f)
  {
  }

  /** Grants that cover every part let a command through that is not denied, even if none covers it as a whole. */
  lemma GrantedPartsAreAllowed(e: Engine, c: Command, ctx: Context)
    requires Checked(e, c) && Gathered(e, c, ctx).Passed?
    requires forall a :: a in Gathered(e, c, ctx).asks ==>
               exists i :: 0 <= i < |ctx.grants| && Covers(e.fold, ctx.grants[i], a.scope)
    ensures Evaluate(e, c, ctx).Allow?
  {
    hide Gathered, ByRisk, Combine;
  }

  // ------------------------------------------------------------ what is said with an answer

  /** An allowed reference is warned of: a write to an unknown place, an unclear use of a guarded path, a grant. */
  ghost predicate WarnsRef(e: Engine, r: PathRef, ctx: Context, w: Warning) {
    var mutates := r.access == RefWrite || r.access == RefDelete;
    var a := if r.access == RefDelete then Delete else Write;
    match r.resolved
    case None => w == Unresolved && mutates
    case Some(p) =>
      || (w == UsesProtected && r.access == RefUnknown && e.guarded(p, false))
      || (w == ByPolicyGrant && mutates && e.classify(p) == External && LocalGrant(e, p, a))
      || (w == BySession && mutates && e.classify(p) == External && !LocalGrant(e, p, a) && SessionGrant(e, p, a, ctx))
  }

  ghost predicate WarnsFinding(e: Engine, f: Finding, trusted: bool, ctx: Context, w: Warning) {
    || (w == GlobalInstall && f.category == PackageGlobal && e.installPolicy == InstallAllow)
    || (w == DynamicBehaviour && f.category == Dynamic)
    || (w == Unclassified && f.category == Unknown && (trusted || f.onlyReads))
    || (w == FromGit && f.git.Some? && e.git(f.git.value) == GitAllow(true))
    || (exists i :: 0 <= i < |f.paths| && WarnsRef(e, f.paths[i], ctx, w))
  }

  lemma PathWarns(e: Engine, c: Command, r: PathRef, ctx: Context, w: Warning)
    requires JudgePath(e, c, r, ctx).Passed?
    ensures w in JudgePath(e, c, r, ctx).warnings <==> WarnsRef(e, r, ctx, w)
  {
    hide EvaluateFs, Forbidden, LocalGrant, SessionGrant;
    if r.resolved.Some? {
      FsDecidesExactly(e, r.resolved.value, Write, ctx);
      FsDecidesExactly(e, r.resolved.value, Delete, ctx);
    }
  }

  lemma {:induction false} PathsWarn(e: Engine, c: Command, rs: seq<PathRef>, ctx: Context, w: Warning)
    requires JudgePaths(e, c, rs, ctx).Passed?
    ensures w in JudgePaths(e, c, rs, ctx).warnings <==> exists i :: 0 <= i < |rs| && WarnsRef(e, rs[i], ctx, w)
  {
    hide JudgePath, WarnsRef;
    if rs != [] {
      var (front, last) := (rs[..|rs| - 1], rs[|rs| - 1]);
      PathsWarn(e, c, front, ctx, w);
      PathWarns(e, c, last, ctx, w);
      assert forall i :: 0 <= i < |front| ==> rs[i] == front[i];
      assert rs[|rs| - 1] == last;
    }
  }

  lemma ThenWarns(v: Verdict, w: Verdict, x: Warning)
    requires AndThen(v, w).Passed?
    ensures v.Passed? && w.Passed? && (x in AndThen(v, w).warnings <==> x in v.warnings || x in w.warnings)
  {
  }

  lemma CategoryWarns(e: Engine, c: Command, f: Finding, ctx: Context, w: Warning)
    requires ByCategory(e, c, f, ctx).Passed?
    ensures w in ByCategory(e, c, f, ctx).warnings <==>
            || (w == GlobalInstall && f.category == PackageGlobal && e.installPolicy == InstallAllow)
            || (w == DynamicBehaviour && f.category == Dynamic)
            || (w == Unclassified && f.category == Unknown && (CwdTrusted(e, c.cwd, ctx) || f.onlyReads))
  {
    hide CwdTrusted;
  }

  lemma FindingWarns(e: Engine, c: Command, f: Finding, ctx: Context, w: Warning)
    requires Judge(e, c, f, ctx).Passed?
    ensures w in Judge(e, c, f, ctx).warnings <==> WarnsFinding(e, f, CwdTrusted(e, c.cwd, ctx), ctx, w)
  {
    hide JudgePaths, WarnsRef, CwdTrusted, ByCategory, Discloses, AndThen;
    var (v1, v2, v3, v4) := (ByCategory(e, c, f, ctx), ByAttribution(e, f), ByGit(e, c, f), ByGh(c, f));
    var v5 := JudgePaths(e, c, f.paths, ctx);
    ThenWarns(AndThen(AndThen(AndThen(v1, v2), v3), v4), v5, w);
    ThenWarns(AndThen(AndThen(v1, v2), v3), v4, w);
    ThenWarns(AndThen(v1, v2), v3, w);
    ThenWarns(v1, v2, w);
    CategoryWarns(e, c, f, ctx, w);
    PathsWarn(e, c, f.paths, ctx, w);
  }

  lemma {:induction false} AllWarn(e: Engine, c: Command, fs: seq<Finding>, ctx: Context, w: Warning)
    requires JudgeAll(e, c, fs, ctx).Passed?
    ensures w in JudgeAll(e, c, fs, ctx).warnings <==>
            exists i :: 0 <= i < |fs| && WarnsFinding(e, fs[i], CwdTrusted(e, c.cwd, ctx), ctx, w)
  {
    hide Judge, WarnsFinding, CwdTrusted;
    if fs != [] {
      var (front, last) := (fs[..|fs| - 1], fs[|fs| - 1]);
      AllWarn(e, c, front, ctx, w);
      FindingWarns(e, c, last, ctx, w);
      assert forall i :: 0 <= i < |front| ==> fs[i] == front[i];
      assert fs[|fs| - 1] == last;
    }
  }

  /** An allowed command carries exactly the warnings of its findings, whether it could not be parsed, and whether
      it would have needed approval. */
  lemma AllowedWarnsExactly(e: Engine, c: Command, ctx: Context, w: Warning)
    requires Checked(e, c) && Evaluate(e, c, ctx).Allow?
    ensures w in Evaluate(e, c, ctx).warnings <==>
            || (exists i :: 0 <= i < |c.findings| && WarnsFinding(e, c.findings[i], AtHome(e, c.cwd, ctx), ctx, w))
            || (w == NotParsed && c.parseErrors)
            || (w == BySession && AsksCommand(e, c, ctx))
  {
    hide JudgeAll, WarnsFinding, AsksFinding, BadFinding, ByRisk, Combine, Granted, AllGranted, AnyDynamic;
    AllWarn(e, c, c.findings, ctx, w);
    AllWeighExactly(e, c, c.findings, ctx);
    NothingToSort(Gathered(e, c, ctx).asks);
    assert CwdTrusted(e, c.cwd, ctx) == AtHome(e, c.cwd, ctx);
    DynamicIs(c.findings);
  }

  lemma {:induction false} AllReasonsIn(asks: seq<Requirement>, r: string)
    ensures r in AllReasons(asks) <==> exists a :: a in asks && r in a.reasons
  {
    if asks != [] {
      var (front, last) := (asks[..|asks| - 1], asks[|asks| - 1]);
      AllReasonsIn(front, r);
      assert asks == front + [last];
      assert forall a :: a in asks <==> a in front || a == last;
    }
  }

  /** A combined requirement gives exactly the reasons of its parts. */
  lemma ReasonsAreShown(c: Command, asks: seq<Requirement>, r: string)
    requires asks != []
    ensures ByRisk(asks) != [] && (r in Combine(c, asks).reasons <==> exists a :: a in asks && r in a.reasons)
  {
    hide ByRisk, AllPaths, AllReasons, Dedup;
    NothingToSort(asks);
    var s := ByRisk(asks);
    forall a ensures a in s <==> a in asks { ByRiskIn(asks, a); }
    AllReasonsIn(s, r);
    assert s[0] in asks;
    assert |asks| == 1 ==> asks == [asks[0]];
  }

  /** The paths of a combined requirement never repeat from one to the next. */
  lemma {:induction false} NoRepeatedNeighbour(ps: seq<Path>, i: nat)
    requires i + 1 < |Dedup(ps)|
    ensures Dedup(ps)[i] != Dedup(ps)[i + 1]
  {
    var front := ps[..|ps| - 1];
    LastStays(front);
    if i + 1 < |Dedup(front)| {
      NoRepeatedNeighbour(front, i);
    }
  }

  lemma {:induction false} LastStays(ps: seq<Path>)
    requires ps != []
    ensures Dedup(ps) != [] && Dedup(ps)[|Dedup(ps)| - 1] == ps[|ps| - 1]
  {
    if |ps| >= 2 {
      LastStays(ps[..|ps| - 1]);
    }
  }
}
