/** Where each operation on remote access leaves the server, stated from what it found and which accesses worked. */
module RemoteAnswers {
  import opened Wrappers
  import opened RemoteAccess

  predicate LatchBars(d: Disk, io: Io) {
    !io.readsLatch || d.latch == Row(true)
  }

  predicate GateInvites(d: Disk, io: Io) {
    io.readsGate && d.gate == Some(true)
  }

  predicate SettingsLost(f: SettingsFile, io: Io) {
    f == Damaged || (f.Stored? && !io.readsSettings)
  }

  function SettingsFound(f: SettingsFile, io: Io): Settings {
    if f.Stored? && io.readsSettings then f.settings else Defaults
  }

  /** Remote access comes up at startup exactly if the latch is readable and clear, the gate readable and open, and the
      settings sound, complete and usable; a latch outranks damaged settings. */
  lemma StartComesUpExactly(s: System, io: Io)
    requires s.server.None? && io.recovers
    ensures
      var s' := Apply(s, Step(Start, io));
      && s'.server.Some? && s'.disk == s.disk
      && var (v, found) := (s'.server.value, SettingsFound(s.disk.settings, io));
         var wanted := GateInvites(s.disk, io) && found.setupCompleted;
         var usable := found.network.port != 0 && io.listens;
         var lost := SettingsLost(s.disk.settings, io);
         && (v.state == EmergencyStopped <==> LatchBars(s.disk, io))
         && (v.state == Ready <==> !LatchBars(s.disk, io) && wanted && usable)
         && (v.state == Faulted <==> !LatchBars(s.disk, io) && (lost || (wanted && !usable)))
         && (v.state == Paused <==> !LatchBars(s.disk, io) && !lost && !wanted)
         && v.settings == found && v.configFault == lost && v.listening == (v.state == Ready)
         && (v.fault == Some(SettingsDamaged) <==> v.state == Faulted && lost)
         && (v.fault == Some(ListenerFailed) <==> v.state == Faulted && !lost)
         && v.fault != Some(StopNotPersisted)
  {
  }

  /** A failed recovery starts nothing. */
  lemma FailedRecoveryStartsNothing(s: System, io: Io)
    requires s.server.None? && !io.recovers
    ensures Apply(s, Step(Start, io)) == s
  {
  }

  /** A restart of the listener comes back exactly if it was up or the gate invites it, and stays stopped if it was. */
  lemma RestartComesBackExactly(s: System, io: Io)
    requires s.server.Some?
    ensures
      var (v, s') := (s.server.value, Apply(s, Step(RestartMcp, io)));
      && s'.server.Some? && s'.disk == s.disk
      && var w := s'.server.value;
         var barred := v.state == EmergencyStopped || LatchBars(s.disk, io);
         var wanted := v.state == Ready || (GateInvites(s.disk, io) && v.settings.setupCompleted);
         var usable := v.settings.network.port != 0 && io.listens;
         && (w.state == EmergencyStopped <==> barred)
         && (w.state == Ready <==> !barred && wanted && usable)
         && (w.state == Faulted <==> !barred && wanted && !usable)
         && (w.state == Paused <==> !barred && !wanted)
         && w.listening == (w.state == Ready) && w.settings == v.settings && w.configFault == v.configFault
         && (w.state == Faulted ==> w.fault == Some(ListenerFailed))
  {
  }

  /** A stop closes the listener whatever fails, and a failed write leaves a visible fault. */
  lemma StopDoes(s: System, io: Io)
    requires s.server.Some?
    ensures
      var s' := Apply(s, Step(EmergencyStop, io));
      && s'.server.Some? && s'.server.value.state == EmergencyStopped && !s'.server.value.listening
      && s'.disk.latch == (if io.writesLatch then Row(true) else s.disk.latch)
      && s'.disk.gate == (if io.writesGate then Some(false) else s.disk.gate)
      && s'.disk.settings == s.disk.settings
      && s'.server.value.fault ==
         (if io.writesLatch && io.writesGate then s.server.value.fault else Some(StopNotPersisted))
  {
  }

  /** Each refusal of a resume has exactly one cause; without any it ends in Ready, latch clear and gate open. */
  lemma ResumeAnswersExactly(s: System, io: Io)
    requires Safe(s) && s.server.Some?
    ensures
      var (v, s', r) := (s.server.value, Apply(s, Step(Resume, io)), ResumeRefusal(s.server.value, io));
      var usable := v.listening || (v.settings.network.port != 0 && io.listens);
      && (r == Some(ConfigFault) <==> v.configFault)
      && (r == Some(LatchWrite) <==> !v.configFault && !io.writesLatch)
      && (r == Some(GateWrite) <==> !v.configFault && io.writesLatch && !io.writesGate)
      && (r == Some(AuditWrite) <==> !v.configFault && io.writesLatch && io.writesGate && !io.writesAudit)
      && (r == Some(NoListener) <==>
          !v.configFault && io.writesLatch && io.writesGate && io.writesAudit && !usable)
      && (r == None <==> !v.configFault && io.writesLatch && io.writesGate && io.writesAudit && usable)
      && (r == None ==> IsReady(s') && s'.disk.latch == Row(false) && s'.disk.gate == Some(true))
      && (r.Some? ==> s'.server == s.server)
      && (v.configFault || !io.writesLatch ==> s'.disk == s.disk)
      && (!v.configFault && io.writesLatch ==>
            s'.disk.latch == Row(false) && s'.disk.gate == if io.writesGate then Some(true) else s.disk.gate)
  {
  }

  /** Enabling is a resume that the latch can veto. */
  lemma EnableIsResumeUnlessLatched(s: System, io: Io)
    requires s.server.Some?
    ensures LatchBars(s.disk, io) ==>
              EnableRefusal(s, io) == Some(StopActive) && Apply(s, Step(Enable, io)) == s
    ensures !LatchBars(s.disk, io) ==>
              && EnableRefusal(s, io) == ResumeRefusal(s.server.value, io)
              && Apply(s, Step(Enable, io)) == Apply(s, Step(Resume, io))
  {
  }

  /** A stop with everything working is undone by a resume with everything working. */
  lemma StopThenResume(s: System)
    requires Safe(s) && s.server.Some? && !s.server.value.configFault && s.server.value.settings.network.port != 0
    ensures IsReady(Apply(Apply(s, Step(EmergencyStop, AllWell)), Step(Resume, AllWell)))
  {
  }

  /** After a pause that could close the gate, no run without local consent reaches Ready. */
  lemma PauseHolds(s: System, io: Io, ts: seq<Step>)
    requires Safe(s) && s.server.Some? && io.writesGate && NoConsent(ts)
    ensures
      var s' := Apply(s, Step(Pause, io));
      && s'.server.Some? && s'.server.value.state == Paused && !s'.server.value.listening
      && !IsReady(Run(s', ts))
  {
    hide Run, NoConsent;
    StepIsSafe(s, Step(Pause, io));
    ClosedRunsStayClosed(Apply(s, Step(Pause, io)), ts);
  }

  /** A pause that cannot close the gate does nothing. */
  lemma FailedPauseDoesNothing(s: System, io: Io)
    requires s.server.Some? && !io.writesGate
    ensures Apply(s, Step(Pause, io)) == s && PauseRefusal(io) == Some(GateWrite)
  {
  }

  /** Saved settings take effect, clear a settings fault, survive a restart, and move the listener only if the network
      changed while it was up; settings that cannot be saved change nothing. */
  lemma UpdateDoes(s: System, next: Settings, io: Io, later: Io)
    requires s.server.Some?
    ensures
      var (v, s') := (s.server.value, Apply(s, Step(UpdateSettings(next), io)));
      && (!io.savesSettings ==> s' == s)
      && (io.savesSettings ==>
            && s'.server.Some? && s'.server.value.settings == next && !s'.server.value.configFault
            && s'.disk == s.disk.(settings := Stored(next))
            && (v.state != Ready || v.settings.network == next.network ==>
                  && s'.server.value.state == v.state && s'.server.value.fault == v.fault
                  && s'.server.value.listening == v.listening)
            && (v.state == Ready && v.settings.network != next.network ==>
                  var (w, usable) := (s'.server.value, next.network.port != 0 && io.listens);
                  && w.state == (if LatchBars(s.disk, io) then EmergencyStopped else if usable then Ready else Faulted)
                  && w.listening == (w.state == Ready)
                  && (w.state == Faulted ==> w.fault == Some(ListenerFailed)))
            && (later.recovers && later.readsSettings ==>
                  var again := Apply(s'.(server := None), Step(Start, later)).server;
                  again.Some? && again.value.settings == next && !again.value.configFault))
  {
  }

  /** A saved reset restores the defaults and turns a fault into a pause. */
  lemma ResetDoes(s: System, io: Io)
    requires s.server.Some?
    ensures
      var (v, s') := (s.server.value, Apply(s, Step(ResetSettings, io)));
      && (!io.savesSettings ==> s' == s)
      && (io.savesSettings ==>
            && s'.server.Some? && s'.disk == s.disk.(settings := Stored(Defaults))
            && s'.server.value.settings == Defaults && !s'.server.value.configFault
            && (v.state == Faulted ==> s'.server.value.state == Paused && s'.server.value.fault == None)
            && (v.state != Faulted ==> s'.server.value.state == v.state && s'.server.value.fault == v.fault))
  {
  }
}
