/**
 Remote access, its crash-safe gate and the Emergency Stop latch. Every operation
 runs to completion; any read, write or listener start it makes can fail.
 */
module RemoteAccess {
  import opened Wrappers

  datatype ServerState = Starting | Ready | Paused | EmergencyStopped | Restarting | Stopping | Faulted

  datatype Network = Network(port: nat, rest: nat)

  datatype Settings = Settings(setupCompleted: bool, network: Network, rest: nat)

  const Defaults := Settings(false, Network(0, 0), 0)

  datatype SettingsFile = Missing | Damaged | Stored(settings: Settings)

  /** The latch row of the control database; a row that does not parse reads as clear. */
  datatype LatchRow = NoRow | Malformed | Row(latched: bool)

  /** `gate` is what the gate file says, if it is readable at all. */
  datatype Disk = Disk(latch: LatchRow, gate: Option<bool>, settings: SettingsFile)

  datatype Fault = SettingsDamaged | ListenerFailed | StopNotPersisted

  datatype Server = Server(
    state: ServerState,
    fault: Option<Fault>,
    settings: Settings,
    configFault: bool,
    listening: bool)

  /** The server is absent while no process runs. */
  datatype System = System(disk: Disk, server: Option<Server>)

  /** Which accesses succeed during one operation. */
  datatype Io = Io(
    recovers: bool,
    readsSettings: bool,
    readsLatch: bool,
    readsGate: bool,
    writesLatch: bool,
    writesGate: bool,
    writesAudit: bool,
    savesSettings: bool,
    listens: bool)

  datatype Refusal = ConfigFault | StopActive | LatchWrite | GateWrite | AuditWrite | NoListener | SettingsWrite

  datatype Op =
    | Start | EmergencyStop | Resume | Pause | Enable | RestartMcp
    | UpdateSettings(next: Settings) | ResetSettings | Shutdown
    | Crash | Damage(settings: SettingsFile, losesGate: bool, losesLatch: bool)

  datatype Step = Step(op: Op, io: Io)

  // ------------------------------------------------------------ what each operation leaves

  predicate LatchSet(d: Disk) {
    d.latch == Row(true)
  }

  function Latched(d: Disk, io: Io): bool {
    io.readsLatch ==> LatchSet(d)
  }

  function GateOpen(d: Disk, io: Io): bool {
    io.readsGate && d.gate == Some(true)
  }

  function Load(f: SettingsFile, io: Io): (Settings, bool) {
    if f.Missing? then (Defaults, false)
    else if f.Damaged? || !io.readsSettings then (Defaults, true)
    else (f.settings, false)
  }

  function CanListen(v: Server, io: Io): bool {
    v.listening || (v.settings.network.port != 0 && io.listens)
  }

  function Listen(v: Server, io: Io): Server {
    if v.listening || !CanListen(v, io) then v
    else v.(listening := true, state := Ready, fault := None)
  }

  function ListenOrFault(v: Server, io: Io): Server {
    if CanListen(v, io) then Listen(v, io)
    else v.(state := Faulted, fault := Some(ListenerFailed))
  }

  function Started(d: Disk, io: Io): Server {
    var (s, bad) := Load(d.settings, io);
    var v := Server(Starting, None, s, bad, false);
    if Latched(d, io) then v.(state := EmergencyStopped)
    else if bad then v.(state := Faulted, fault := Some(SettingsDamaged))
    else if s.setupCompleted && GateOpen(d, io) then ListenOrFault(v, io)
    else v.(state := Paused)
  }

  function Stopped(s: System, io: Io): System
    requires s.server.Some?
  {
    System(
      Disk(
        if io.writesLatch then Row(true) else s.disk.latch,
        if io.writesGate then Some(false) else s.disk.gate,
        s.disk.settings),
      Some(s.server.value.(
        state := EmergencyStopped,
        fault := if io.writesLatch && io.writesGate then s.server.value.fault else Some(StopNotPersisted),
        listening := false)))
  }

  function ResumeRefusal(v: Server, io: Io): Option<Refusal> {
    if v.configFault then Some(ConfigFault)
    else if !io.writesLatch then Some(LatchWrite)
    else if !io.writesGate then Some(GateWrite)
    else if !io.writesAudit then Some(AuditWrite)
    else if !CanListen(v, io) then Some(NoListener)
    else None
  }

  /** A resume that is refused midway keeps what it has already written. */
  function Resumed(s: System, io: Io): System
    requires s.server.Some?
  {
    var v := s.server.value;
    var r := ResumeRefusal(v, io);
    if r == Some(ConfigFault) || r == Some(LatchWrite) then s
    else if r == Some(GateWrite) then s.(disk := s.disk.(latch := Row(false)))
    else
      System(s.disk.(latch := Row(false), gate := Some(true)), Some(if r.None? then Listen(v, io) else v))
  }

  function EnableRefusal(s: System, io: Io): Option<Refusal>
    requires s.server.Some?
  {
    if Latched(s.disk, io) then Some(StopActive) else ResumeRefusal(s.server.value, io)
  }

  function PauseRefusal(io: Io): Option<Refusal> {
    if !io.writesGate then Some(GateWrite) else if !io.writesAudit then Some(AuditWrite) else None
  }

  function PausedBy(s: System, io: Io): System
    requires s.server.Some?
  {
    if !io.writesGate then s
    else System(s.disk.(gate := Some(false)), Some(s.server.value.(state := Paused, listening := false)))
  }

  function Restarted(d: Disk, v: Server, io: Io): Server {
    var w := v.(state := Restarting, listening := false);
    if v.state == EmergencyStopped || Latched(d, io) then w.(state := EmergencyStopped)
    else if v.state == Ready || (GateOpen(d, io) && v.settings.setupCompleted) then ListenOrFault(w, io)
    else w.(state := Paused)
  }

  function Updated(s: System, next: Settings, io: Io): System
    requires s.server.Some?
  {
    var v := s.server.value;
    if !io.savesSettings then s
    else
      var w := v.(settings := next, configFault := false);
      var d := s.disk.(settings := Stored(next));
      System(d, Some(if v.settings.network != next.network && v.state == Ready then Restarted(d, w, io) else w))
  }

  function Reset(s: System, io: Io): System
    requires s.server.Some?
  {
    var v := s.server.value;
    if !io.savesSettings then s
    else
      var w := v.(settings := Defaults, configFault := false);
      System(
        s.disk.(settings := Stored(Defaults)),
        Some(if v.state == Faulted then w.(state := Paused, fault := None) else w))
  }

  /** Operations need a running server, a start needs none; anything else leaves the system alone. */
  function Apply(s: System, t: Step): System {
    match t.op
    case Start => if s.server.Some? || !t.io.recovers then s else s.(server := Some(Started(s.disk, t.io)))
    case Crash => s.(server := None)
    case Damage(f, losesGate, losesLatch) =>
      s.(disk := Disk(
        if losesLatch then Malformed else s.disk.latch, if losesGate then None else s.disk.gate, f))
    case EmergencyStop => if s.server.None? then s else Stopped(s, t.io)
    case Resume => if s.server.None? then s else Resumed(s, t.io)
    case Enable => if s.server.None? || Latched(s.disk, t.io) then s else Resumed(s, t.io)
    case Pause => if s.server.None? then s else PausedBy(s, t.io)
    case RestartMcp => if s.server.None? then s else s.(server := Some(Restarted(s.disk, s.server.value, t.io)))
    case UpdateSettings(next) => if s.server.None? then s else Updated(s, next, t.io)
    case ResetSettings => if s.server.None? then s else Reset(s, t.io)
    case Shutdown =>
      if s.server.None? then s
      else s.(server := Some(s.server.value.(state := Stopping, listening := false)))
  }

  function Run(s: System, ts: seq<Step>): System
    decreases |ts|
  {
    if ts == [] then s else Run(Apply(s, ts[0]), ts[1..])
  }

  // ------------------------------------------------------------ Ready is safe

  predicate IsReady(s: System) {
    s.server.Some? && s.server.value.state == Ready
  }

  /** The listener is open exactly in Ready; Ready has neither latch nor damaged settings; damaged settings
      are replaced by the defaults, under which setup is not complete. */
  predicate Safe(s: System) {
    s.server.Some? ==>
      var v := s.server.value;
      && (v.listening <==> v.state == Ready)
      && (v.state == Ready ==> !LatchSet(s.disk) && !v.configFault)
      && (v.configFault ==> v.settings == Defaults)
  }

  lemma StepIsSafe(s: System, t: Step)
    requires Safe(s)
    ensures Safe(Apply(s, t))
  {
  }

  /** In every run, with crashes between operations and failing accesses inside them, Ready means the latch is
      clear and the settings are sound, and nothing listens outside Ready. */
  lemma {:induction false} ReadyIsSafe(s: System, ts: seq<Step>)
    requires Safe(s)
    ensures Safe(Run(s, ts))
    decreases |ts|
  {
    if ts != [] {
      StepIsSafe(s, ts[0]);
      ReadyIsSafe(Apply(s, ts[0]), ts[1..]);
    }
  }

  // ------------------------------------------------------------ a stop stays until local consent

  predicate Consents(t: Step) {
    t.op.Resume? || t.op.Enable?
  }

  predicate NoConsent(ts: seq<Step>) {
    forall i :: 0 <= i < |ts| ==> !Consents(ts[i])
  }

  predicate LosesLatch(t: Step) {
    t.op.Damage? && t.op.losesLatch
  }

  /** Neither consent nor damage to the latch row. */
  predicate NoConsentNorLoss(ts: seq<Step>) {
    forall i :: 0 <= i < |ts| ==> !Consents(ts[i]) && !LosesLatch(ts[i])
  }

  predicate GateClosed(s: System) {
    s.disk.gate != Some(true)
  }

  predicate Barred(s: System) {
    LatchSet(s.disk) || GateClosed(s)
  }

  lemma BarredStaysBarred(s: System, t: Step)
    requires Safe(s) && Barred(s) && !IsReady(s) && !Consents(t) && !LosesLatch(t)
    ensures Barred(Apply(s, t)) && !IsReady(Apply(s, t))
  {
  }

  lemma {:induction false} BarredRunsStayBarred(s: System, ts: seq<Step>)
    requires Safe(s) && Barred(s) && !IsReady(s) && NoConsentNorLoss(ts)
    ensures Barred(Run(s, ts)) && !IsReady(Run(s, ts))
    decreases |ts|
  {
    if ts != [] {
      assert !Consents(ts[0]) && !LosesLatch(ts[0]);
      BarredStaysBarred(s, ts[0]);
      StepIsSafe(s, ts[0]);
      BarredRunsStayBarred(Apply(s, ts[0]), ts[1..]);
    }
  }

  lemma ClosedStaysClosed(s: System, t: Step)
    requires Safe(s) && GateClosed(s) && !IsReady(s) && !Consents(t)
    ensures GateClosed(Apply(s, t)) && !IsReady(Apply(s, t))
  {
  }

  /** A closed gate needs no latch: it bars access whatever is lost. */
  lemma {:induction false} ClosedRunsStayClosed(s: System, ts: seq<Step>)
    requires Safe(s) && GateClosed(s) && !IsReady(s) && NoConsent(ts)
    ensures GateClosed(Run(s, ts)) && !IsReady(Run(s, ts))
    decreases |ts|
  {
    if ts != [] {
      assert !Consents(ts[0]);
      ClosedStaysClosed(s, ts[0]);
      StepIsSafe(s, ts[0]);
      ClosedRunsStayClosed(Apply(s, ts[0]), ts[1..]);
    }
  }

  /** A latch outlasts even attempts to enable: while its row is intact only a Resume can lift it. */
  lemma {:induction false} LatchNeedsResume(s: System, ts: seq<Step>)
    requires Safe(s) && LatchSet(s.disk)
    requires forall i :: 0 <= i < |ts| ==> ts[i].op != Resume && !LosesLatch(ts[i])
    ensures LatchSet(Run(s, ts).disk) && !IsReady(Run(s, ts))
    decreases |ts|
  {
    if ts != [] {
      assert ts[0].op != Resume && !LosesLatch(ts[0]);
      StepIsSafe(s, ts[0]);
      LatchNeedsResume(Apply(s, ts[0]), ts[1..]);
    }
  }

  const AllWell := Io(true, true, true, true, true, true, true, true, true)

  /** A crash, and a start under complete settings. */
  const ComeBack := [
    Step(UpdateSettings(Settings(true, Network(1, 0), 0)), AllWell), Step(Crash, AllWell), Step(Start, AllWell)]

  lemma ComesBack(s: System)
    requires s.server.Some? && !Barred(s)
    ensures NoConsentNorLoss(ComeBack) && NoConsent(ComeBack) && IsReady(Run(s, ComeBack))
  {
    var s1 := Apply(s, ComeBack[0]);
    var s2 := Apply(s1, ComeBack[1]);
    assert ComeBack[1..][1..] == ComeBack[2..] && ComeBack[2..][1..] == [];
    assert !LatchSet(s1.disk) && s1.disk.gate == Some(true);
    assert IsReady(Apply(s2, ComeBack[2]));
    assert Run(s, ComeBack) == Run(s1, ComeBack[1..]) == Run(s2, ComeBack[2..]) == Apply(s2, ComeBack[2]);
  }

  /** After an Emergency Stop nothing but a local resume or enable reaches Ready while the latch row stays intact,
      exactly when the stop persisted the latch or closed the gate, or one of them barred access already. */
  lemma StopHoldsExactlyWhenPersisted(s: System, io: Io)
    requires Safe(s) && s.server.Some?
    ensures (forall ts: seq<Step> :: NoConsentNorLoss(ts) ==> !IsReady(Run(Stopped(s, io), ts)))
            <==> (io.writesLatch || io.writesGate || Barred(s))
  {
    hide Run, NoConsentNorLoss, NoConsent;
    var t := Apply(s, Step(EmergencyStop, io));
    assert t == Stopped(s, io) && (Barred(t) <==> io.writesLatch || io.writesGate || Barred(s));
    if Barred(t) {
      StepIsSafe(s, Step(EmergencyStop, io));
      forall ts: seq<Step> | NoConsentNorLoss(ts)
        ensures !IsReady(Run(t, ts))
      {
        BarredRunsStayBarred(t, ts);
      }
    } else {
      ComesBack(t);
    }
  }

  /** If the latch row may be damaged too, the gate alone decides. */
  lemma StopSurvivesDamageExactlyWhenClosed(s: System, io: Io)
    requires Safe(s) && s.server.Some?
    ensures (forall ts: seq<Step> :: NoConsent(ts) ==> !IsReady(Run(Stopped(s, io), ts)))
            <==> (io.writesGate || GateClosed(s))
  {
    hide NoConsentNorLoss, NoConsent;
    var t := Apply(s, Step(EmergencyStop, io));
    assert t == Stopped(s, io) && (GateClosed(t) <==> io.writesGate || GateClosed(s));
    if GateClosed(t) {
      StepIsSafe(s, Step(EmergencyStop, io));
      forall ts: seq<Step> | NoConsent(ts)
        ensures !IsReady(Run(t, ts))
      {
        ClosedRunsStayClosed(t, ts);
      }
    } else {
      LosingTheLatch(t);
    }
  }

  lemma LosingTheLatch(s: System)
    requires s.server.Some? && !GateClosed(s)
    ensures var ts := [Step(Damage(s.disk.settings, false, true), AllWell)] + ComeBack;
            NoConsent(ts) && IsReady(Run(s, ts))
  {
    var loss := Step(Damage(s.disk.settings, false, true), AllWell);
    var ts := [loss] + ComeBack;
    var t := Apply(s, loss);
    ComesBack(t);
    assert ts[1..] == ComeBack && Run(s, ts) == Run(t, ComeBack);
  }

  /** A Resume that reports a failure can still have lifted the stop: exactly when it cleared the latch and the
      gate is open, a later start comes up without further consent. */
  lemma RefusedResumeLiftsStop(s: System, io: Io)
    requires Safe(s) && s.server.Some? && LatchSet(s.disk) && ResumeRefusal(s.server.value, io).Some?
    ensures (exists ts: seq<Step> :: NoConsentNorLoss(ts) && IsReady(Run(Resumed(s, io), ts)))
            <==> (!s.server.value.configFault && io.writesLatch && (io.writesGate || s.disk.gate == Some(true)))
  {
    hide Run, NoConsentNorLoss, NoConsent;
    var t := Apply(s, Step(Resume, io));
    StepIsSafe(s, Step(Resume, io));
    assert t == Resumed(s, io) && !IsReady(t);
    if Barred(t) {
      forall ts: seq<Step> | NoConsentNorLoss(ts)
        ensures !IsReady(Run(t, ts))
      {
        BarredRunsStayBarred(t, ts);
      }
    } else {
      ComesBack(t);
    }
  }

  const COMPLETE := Settings(true, Network(8080, 0), 0)
  const NoWrites := AllWell.(writesLatch := false, writesGate := false)

  /** Start, stop without a successful write, crash, start: remote access is up again. */
  lemma UnpersistedStopIsUndone()
    ensures
      var s := System(Disk(NoRow, Some(true), Stored(COMPLETE)), None);
      var stopped := Run(s, [Step(Start, AllWell), Step(EmergencyStop, NoWrites)]);
      && stopped.server.Some? && stopped.server.value.state == EmergencyStopped
      && IsReady(Run(stopped, [Step(Crash, AllWell), Step(Start, AllWell)]))
  {
    var s := System(Disk(NoRow, Some(true), Stored(COMPLETE)), None);
    RunOfTwo(s, Step(Start, AllWell), Step(EmergencyStop, NoWrites));
    var stopped := Run(s, [Step(Start, AllWell), Step(EmergencyStop, NoWrites)]);
    RunOfTwo(stopped, Step(Crash, AllWell), Step(Start, AllWell));
  }

  /** A latched server, a resume whose audit record fails, crash, start: up, although the resume was refused. */
  lemma RefusedResumeComesUp()
    ensures
      var s := System(Disk(Row(true), Some(false), Stored(COMPLETE)), Some(Started(
        Disk(Row(true), Some(false), Stored(COMPLETE)), AllWell)));
      var io := AllWell.(writesAudit := false);
      && s.server.value.state == EmergencyStopped && ResumeRefusal(s.server.value, io) == Some(AuditWrite)
      && IsReady(Run(Resumed(s, io), [Step(Crash, AllWell), Step(Start, AllWell)]))
  {
    var d := Disk(Row(true), Some(false), Stored(COMPLETE));
    var s := System(d, Some(Started(d, AllWell)));
    RunOfTwo(Resumed(s, AllWell.(writesAudit := false)), Step(Crash, AllWell), Step(Start, AllWell));
  }

  lemma RunOfTwo(s: System, a: Step, b: Step)
    ensures Run(s, [a, b]) == Apply(Apply(s, a), b)
  {
    hide Apply;
    assert [a, b][1..] == [b] && [b][1..] == [];
    assert Run(s, [a, b]) == Run(Apply(s, a), [b]);
  }

  // ------------------------------------------------------------ the operations

  class Core {
    var latch: LatchRow
    var gate: Option<bool>
    var file: SettingsFile
    var running: bool
    var state: ServerState
    var fault: Option<Fault>
    var settings: Settings
    var configFault: bool
    var listening: bool

    ghost function Value(): System
      reads this
    {
      System(
        Disk(latch, gate, file),
        if running then Some(Server(state, fault, settings, configFault, listening)) else None)
    }

    constructor (d: Disk)
      ensures Value() == System(d, None)
    {
      latch, gate, file, running := d.latch, d.gate, d.settings, false;
      state, fault, settings, configFault, listening := Starting, None, Defaults, false, false;
    }

    method StartCore(io: Io) returns (ok: bool)
      requires !running
      modifies this
      ensures ok == io.recovers && Value() == Apply(old(Value()), Step(Start, io))
    {
      hide Load;
      if !io.recovers {
        return false;
      }
      ok := true;
      running, state, fault, listening := true, Starting, None, false;
      LoadSettings(io);
      if !io.readsLatch || latch == Row(true) {
        state := EmergencyStopped;
      } else if configFault {
        state, fault := Faulted, Some(SettingsDamaged);
      } else if settings.setupCompleted && io.readsGate && gate == Some(true) {
        var up := StartHttp(io);
        if !up {
          state, fault := Faulted, Some(ListenerFailed);
        }
      } else {
        state := Paused;
      }
    }

    method LoadSettings(io: Io)
      modifies this`settings, this`configFault
      ensures (settings, configFault) == Load(file, io)
    {
      if file.Missing? {
        settings, configFault := Defaults, false;
      } else if file.Damaged? || !io.readsSettings {
        settings, configFault := Defaults, true;
      } else {
        settings, configFault := file.settings, false;
      }
    }

    method StartHttp(io: Io) returns (up: bool)
      requires running
      modifies this`listening, this`state, this`fault
      ensures up == CanListen(old(Value()).server.value, io)
      ensures Value() == old(Value()).(server := Some(Listen(old(Value()).server.value, io)))
    {
      if listening {
        return true;
      }
      if settings.network.port == 0 || !io.listens {
        return false;
      }
      listening, state, fault := true, Ready, None;
      up := true;
    }

    method StopNow(io: Io)
      requires running
      modifies this
      ensures Value() == Apply(old(Value()), Step(EmergencyStop, io))
    {
      state := EmergencyStopped;
      if io.writesLatch {
        latch := Row(true);
      }
      if io.writesGate {
        gate := Some(false);
      }
      if !io.writesLatch || !io.writesGate {
        fault := Some(StopNotPersisted);
      }
      listening := false;
    }

    method ResumeAccess(io: Io) returns (refused: Option<Refusal>)
      requires running
      modifies this
      ensures refused == ResumeRefusal(old(Value()).server.value, io)
      ensures Value() == Apply(old(Value()), Step(Resume, io))
      ensures refused.None? && Safe(old(Value())) ==> IsReady(Value()) && latch == Row(false) && gate == Some(true)
    {
      if configFault {
        return Some(ConfigFault);
      }
      if !io.writesLatch {
        return Some(LatchWrite);
      }
      latch := Row(false);
      if !io.writesGate {
        return Some(GateWrite);
      }
      gate := Some(true);
      if !io.writesAudit {
        return Some(AuditWrite);
      }
      var up := StartHttp(io);
      refused := if up then None else Some(NoListener);
    }

    method EnableAccess(io: Io) returns (refused: Option<Refusal>)
      requires running
      modifies this
      ensures refused == EnableRefusal(old(Value()), io)
      ensures Value() == Apply(old(Value()), Step(Enable, io))
    {
      if !io.readsLatch || latch == Row(true) {
        return Some(StopActive);
      }
      refused := ResumeAccess(io);
    }

    method PauseAccess(io: Io) returns (refused: Option<Refusal>)
      requires running
      modifies this
      ensures refused == PauseRefusal(io)
      ensures Value() == Apply(old(Value()), Step(Pause, io))
    {
      if !io.writesGate {
        return Some(GateWrite);
      }
      gate, state, listening := Some(false), Paused, false;
      refused := if io.writesAudit then None else Some(AuditWrite);
    }

    method RestartListener(io: Io)
      requires running
      modifies this`state, this`listening, this`fault
      ensures Value() == Apply(old(Value()), Step(RestartMcp, io))
    {
      var prev := state;
      state := Restarting;
      listening := false;
      if prev == EmergencyStopped || !io.readsLatch || latch == Row(true) {
        state := EmergencyStopped;
      } else if prev == Ready || (io.readsGate && gate == Some(true) && settings.setupCompleted) {
        var up := StartHttp(io);
        if !up {
          state, fault := Faulted, Some(ListenerFailed);
        }
      } else {
        state := Paused;
      }
    }

    method ChangeSettings(next: Settings, io: Io) returns (refused: Option<Refusal>)
      requires running
      modifies this
      ensures refused == if io.savesSettings then None else Some(SettingsWrite)
      ensures Value() == Apply(old(Value()), Step(UpdateSettings(next), io))
    {
      if !io.savesSettings {
        return Some(SettingsWrite);
      }
      refused := None;
      var networkChanged := settings.network != next.network;
      file, settings, configFault := Stored(next), next, false;
      if networkChanged && state == Ready {
        RestartListener(io);
      }
    }

    method ResetToDefaults(io: Io) returns (refused: Option<Refusal>)
      requires running
      modifies this
      ensures refused == if io.savesSettings then None else Some(SettingsWrite)
      ensures Value() == Apply(old(Value()), Step(ResetSettings, io))
    {
      if !io.savesSettings {
        return Some(SettingsWrite);
      }
      refused := None;
      file, settings, configFault := Stored(Defaults), Defaults, false;
      if state == Faulted {
        state, fault := Paused, None;
      }
    }
  }
}
