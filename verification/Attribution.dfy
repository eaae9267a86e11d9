/** Whose exit status an invoker gets. */
module Attribution {
  import opened Protocol
  import opened DaemonState
  import opened World
  import opened WorldInvariant
  import opened WorldTheorems

  /** Every mapped process is mapped to the connection it was launched for, every process but the current
      booster has been launched, and the daemon's socket holds the current booster's datagram if it has been
      launched and nothing if it has not. */
  ghost predicate Attributed(w: World) {
    && (forall p :: p in w.d.invokerFd && p in w.procs && w.d.invokerFd[p] in w.fds ==>
          w.procs[p].app == Some(w.fds[w.d.invokerFd[p]]))
    && (forall p :: p in w.procs && p != w.d.boosterPid ==> w.procs[p].app.Some?)
    && w.d.boosterPid in w.procs
    && var b := w.procs[w.d.boosterPid];
       if b.app.None? then w.queue == []
       else |w.queue| == 1 && w.queue[0].conn == b.app.value && w.queue[0].sender == b.born
  }

  /** An invoker whose connection was settled got the end of the application launched for it, and that
      application is no longer among the processes. */
  ghost predicate OwnStatus(w: World) {
    && (forall n :: 0 <= n < |w.conns| && w.conns[n].stage.Settled? ==>
          w.conns[n].appStatus == Some(w.conns[n].stage.status))
    && (forall p :: p in w.procs && w.procs[p].app.Some? && w.procs[p].app.value < |w.conns| ==>
          !w.conns[w.procs[p].app.value].stage.Settled?)
  }

  /** reapZombies finds the current booster dead while a datagram is still unread. */
  predicate ReapsUnread(w: World, e: Event)
    requires Enabled(w, e)
  {
    e.Poll? && DeadAt(w, w.pc.i) && w.d.children[w.pc.i] == w.d.boosterPid && w.queue != []
  }

  // ---- one event ----

  lemma BoosterEventAttributed(w: World, e: Event)
    requires Inv(w) && Attributed(w) && Enabled(w, e)
    requires e.Accept? || e.SendWord? || e.Lose? || e.FinishLosing? || e.Launch? || e.Die?
    ensures Attributed(Next(w, e))
  {
    hide InvHeld, InvSettled, InvQueue, InvMode, InvDaemon, ConnOk;
    if e.Launch? {
      LaunchAttributed(w, e.p);
    } else {
      ServerFacts(w, e.p);
    }
  }

  lemma LaunchAttributed(w: World, p: int)
    requires Inv(w) && Attributed(w) && Enabled(w, Launch(p))
    ensures Attributed(AfterLaunch(w, p))
  {
    hide InvHeld, InvSettled, InvQueue, InvMode, InvDaemon, ConnOk;
    ServerFacts(w, p);
    assert p == w.d.boosterPid;
  }

  lemma DatagramAttributed(w: World, newPid: int, fd: int)
    requires Inv(w) && Attributed(w) && Enabled(w, ReadDatagram(newPid, fd))
    ensures Attributed(AfterReadDatagram(w, newPid, fd))
  {
    hide Inv, AfterReadDatagram, AfterDatagram, ConnStep, ConnOk;
    QueueFacts(w);
    MappedAreOpen(w);
    DatagramTables(w, newPid, fd);
    ReadDatagramStep(w, newPid, fd);
    var w', b := AfterReadDatagram(w, newPid, fd), w.d.boosterPid;
    assert w'.queue == [];
    forall p | p in w'.d.invokerFd && p in w'.procs && w'.d.invokerFd[p] in w'.fds
      ensures w'.procs[p].app == Some(w'.fds[w'.d.invokerFd[p]])
    {
      assert p != newPid;
      if p != b {
        assert p in w.d.invokerFd && w.d.invokerFd[p] in w.fds && w.d.invokerFd[p] != fd;
      }
    }
  }

  lemma BoosterIsProcess(w: World)
    requires InvDaemon(w)
    ensures w.d.boosterPid in w.procs && w.d.boosterPid > 0
  {
  }

  /** A signal leaves the processes, and what they were launched for, alone. */
  lemma SignalLeavesProcesses(w: World)
    requires Inv(w) && Enabled(w, TakeSignal)
    ensures var w' := AfterTakeSignal(w);
            && w'.conns == w.conns && w'.fds == w.fds && w'.queue == w.queue && w'.procs.Keys == w.procs.Keys
            && w'.d == w.d.(bootMode := w'.d.bootMode)
            && forall p :: p in w.procs ==> w'.procs[p] == w.procs[p].(termed := w'.procs[p].termed)
  {
    hide InvHeld, InvSettled, InvQueue, InvProcs, InvConns, InvMode, InvDaemon, Terminate, ModeEffects;
    BoosterIsProcess(w);
    match w.pipe[0]
    case USR1 => SwitchTerminates(w.procs, w.d, false);
    case USR2 => SwitchTerminates(w.procs, w.d, true);
    case _ =>
  }

  lemma SignalAttributed(w: World)
    requires Inv(w) && Attributed(w) && Enabled(w, TakeSignal)
    ensures Attributed(AfterTakeSignal(w))
  {
    hide Inv, AfterTakeSignal;
    SignalLeavesProcesses(w);
  }

  /** Burying a child keeps the attribution exactly when it is not the booster with an unread datagram. */
  lemma PollAttributed(w: World, newPid: int)
    requires Inv(w) && Attributed(w) && Enabled(w, Poll(newPid)) && DeadAt(w, w.pc.i)
    ensures Attributed(AfterPoll(w, newPid)) <==> !ReapsUnread(w, Poll(newPid))
  {
    hide InvHeld, InvSettled, InvConns, InvQueue, InvProcs, InvMode, InvDaemon, ConnOk, FarewellEffects, Settle,
      AfterEffects;
    var w', pid := AfterPoll(w, newPid), w.d.children[w.pc.i];
    var status := w.procs[pid].phase.status;
    ExitCodeFits(w, pid);
    DeathMaps(w, newPid);
    MappedAreOpen(w);
    if pid in w.d.invokerFd {
      MappedFacts(w, pid);
      FarewellMapped(w, pid, status, w.d.invokerFd[pid], w.fds[w.d.invokerFd[pid]]);
    } else {
      FarewellUnmapped(w, pid, status);
    }
  }

  lemma MappedAreOpen(w: World)
    requires Inv(w)
    ensures forall p :: p in w.d.invokerFd ==> p in w.procs && p != w.d.boosterPid && w.d.invokerFd[p] in w.fds
    ensures forall p, q :: p in w.d.invokerFd && q in w.d.invokerFd && w.d.invokerFd[p] == w.d.invokerFd[q] ==> p == q
  {
  }

  /** From an attributed state, an event leads to an attributed state exactly when it does not reap the current
      booster over an unread datagram. */
  lemma EventAttributes(w: World, e: Event)
    requires Inv(w) && Attributed(w) && Enabled(w, e)
    ensures Attributed(Next(w, e)) <==> !ReapsUnread(w, e)
  {
    hide Inv, Attributed;
    match e
    case ReadDatagram(newPid, fd) => DatagramAttributed(w, newPid, fd);
    case TakeSignal => SignalAttributed(w);
    case Poll(newPid) =>
      if DeadAt(w, w.pc.i) {
        PollAttributed(w, newPid);
      } else {
        PlaceAttributed(w, Next(w, e));
      }
    case Deliver(_) => PlaceAttributed(w, Next(w, e));
    case Select => PlaceAttributed(w, Next(w, e));
    case EndReap => PlaceAttributed(w, Next(w, e));
    case _ => BoosterEventAttributed(w, e);
  }

  lemma PlaceAttributed(w: World, w': World)
    requires Attributed(w) && w' == w.(pipe := w'.pipe, pc := w'.pc)
    ensures Attributed(w')
  {
  }

  // ---- each invoker gets its own application's status ----

  lemma BoosterEventOwn(w: World, e: Event)
    requires Inv(w) && OwnStatus(w) && Enabled(w, e)
    requires e.Accept? || e.SendWord? || e.Lose? || e.FinishLosing? || e.Launch? || e.Die?
    ensures OwnStatus(Next(w, e))
  {
    hide InvHeld, InvSettled, InvQueue, InvMode, InvDaemon, ConnOk;
    AppsExist(w);
    ServerFacts(w, e.p);
    match e
    case Die(p, status) => DieOwn(w, p, status);
    case SendWord(p) => WordOwn(w, p);
    case _ =>
  }

  lemma WordOwn(w: World, p: int)
    requires OwnStatus(w) && Enabled(w, SendWord(p)) && BoosterOnly(Served(w, p).stage)
    ensures OwnStatus(AfterSendWord(w, p))
  {
    hide Script;
  }

  lemma DieOwn(w: World, p: int, status: Status)
    requires Inv(w) && OwnStatus(w) && Enabled(w, Die(p, status))
    ensures OwnStatus(AfterDie(w, p, status))
  {
    hide InvHeld, InvSettled, InvQueue, InvProcs, InvConns, InvMode, InvDaemon;
    AppsExist(w);
    ServerFacts(w, p);
    if w.procs[p].phase.Running? {
      RunningFacts(w, p);
    }
  }

  lemma AppsExist(w: World)
    requires InvProcs(w)
    ensures forall p :: p in w.procs && w.procs[p].app.Some? ==>
              w.procs[p].app.value < |w.conns| && w.conns[w.procs[p].app.value].pid == p
    ensures forall p :: p in w.procs && w.procs[p].app.Some? && w.procs[p].phase.Dead? ==>
              w.conns[w.procs[p].app.value].appStatus == Some(w.procs[p].phase.status)
  {
    forall p | p in w.procs ensures ProcOk(w, p) {
    }
  }

  lemma DatagramOwn(w: World, newPid: int, fd: int)
    requires Inv(w) && OwnStatus(w) && Enabled(w, ReadDatagram(newPid, fd))
    ensures OwnStatus(AfterReadDatagram(w, newPid, fd))
  {
    hide InvHeld, InvSettled, InvQueue, InvProcs, InvConns, InvMode, InvDaemon, AfterReadDatagram;
    AppsExist(w);
    ReadDatagramStep(w, newPid, fd);
  }

  lemma PollOwn(w: World, newPid: int)
    requires Inv(w) && Attributed(w) && OwnStatus(w) && Enabled(w, Poll(newPid)) && DeadAt(w, w.pc.i)
    ensures OwnStatus(AfterPoll(w, newPid))
  {
    hide InvHeld, InvSettled, InvConns, InvQueue, InvProcs, InvMode, InvDaemon, ConnOk, FarewellEffects, Settle,
      AfterEffects;
    var pid := w.d.children[w.pc.i];
    var status := w.procs[pid].phase.status;
    ExitCodeFits(w, pid);
    AppsExist(w);
    if pid in w.d.invokerFd {
      MappedFacts(w, pid);
      FarewellMapped(w, pid, status, w.d.invokerFd[pid], w.fds[w.d.invokerFd[pid]]);
    } else {
      DeathMaps(w, newPid);
      FarewellUnmapped(w, pid, status);
    }
  }

  lemma EventOwn(w: World, e: Event)
    requires Inv(w) && Attributed(w) && OwnStatus(w) && Enabled(w, e)
    ensures OwnStatus(Next(w, e))
  {
    hide Inv, Attributed, OwnStatus;
    match e
    case ReadDatagram(newPid, fd) => DatagramOwn(w, newPid, fd);
    case TakeSignal => SignalOwn(w);
    case Poll(newPid) =>
      if DeadAt(w, w.pc.i) {
        PollOwn(w, newPid);
      } else {
        PlaceOwn(w, Next(w, e));
      }
    case Deliver(_) => PlaceOwn(w, Next(w, e));
    case Select => PlaceOwn(w, Next(w, e));
    case EndReap => PlaceOwn(w, Next(w, e));
    case _ => BoosterEventOwn(w, e);
  }

  lemma PlaceOwn(w: World, w': World)
    requires OwnStatus(w) && w' == w.(pipe := w'.pipe, pc := w'.pc)
    ensures OwnStatus(w')
  {
  }

  lemma SignalOwn(w: World)
    requires Inv(w) && OwnStatus(w) && Enabled(w, TakeSignal)
    ensures OwnStatus(AfterTakeSignal(w))
  {
    hide Inv, AfterTakeSignal;
    SignalLeavesProcesses(w);
  }

  // ---- whole runs ----

  lemma InitAttributed(boot: bool, pid: int)
    ensures Attributed(Init(boot, pid)) && OwnStatus(Init(boot, pid))
  {
  }

  lemma {:induction false} AttributedUpTo(ws: seq<World>, es: seq<Event>, k: nat)
    requires IsRun(ws, es) && k <= |es|
    requires forall j :: 0 <= j < k ==> !ReapsUnread(ws[j], es[j])
    ensures Attributed(ws[k]) && OwnStatus(ws[k])
  {
    hide Inv, Attributed, OwnStatus, ReapsUnread;
    if k == 0 {
      var boot, pid :| 0 < pid < 0x1_0000_0000 && ws[0] == Init(boot, pid);
      InitAttributed(boot, pid);
    } else {
      AttributedUpTo(ws, es, k - 1);
      RunsKeepInvariant(ws, es, k - 1);
      EventAttributes(ws[k - 1], es[k - 1]);
      EventOwn(ws[k - 1], es[k - 1]);
    }
  }

  /** A run is attributed throughout exactly when the daemon never reaps the current booster over an unread
      datagram; then every invoker that is given a status is given its own application's. */
  lemma AttributionOverRuns(ws: seq<World>, es: seq<Event>)
    requires IsRun(ws, es)
    ensures (forall k :: 0 <= k <= |es| ==> Attributed(ws[k]))
        <==> (forall k :: 0 <= k < |es| ==> !ReapsUnread(ws[k], es[k]))
    ensures (forall k :: 0 <= k < |es| ==> !ReapsUnread(ws[k], es[k])) ==>
              forall k :: 0 <= k <= |es| ==> OwnStatus(ws[k])
  {
    hide Inv, Attributed, OwnStatus, ReapsUnread;
    if forall k :: 0 <= k < |es| ==> !ReapsUnread(ws[k], es[k]) {
      forall k | 0 <= k <= |es| ensures Attributed(ws[k]) && OwnStatus(ws[k]) {
        AttributedUpTo(ws, es, k);
      }
    } else {
      var k :| 0 <= k < |es| && ReapsUnread(ws[k], es[k]);
      RunsKeepInvariant(ws, es, k);
      if Attributed(ws[k]) {
        EventAttributes(ws[k], es[k]);
        assert !Attributed(ws[k + 1]);
      }
    }
  }

  // ---- what a reaped booster's unread datagram leads to ----

  /** The process launched for connection n has been reaped, and there will be no other. */
  ghost predicate Abandoned(w: World, n: nat) {
    && n < |w.conns| && !BoosterOnly(w.conns[n].stage)
    && forall p :: p in w.procs ==> w.procs[p].app != Some(n)
  }

  lemma StaysAbandoned(w: World, e: Event, n: nat)
    requires Inv(w) && Enabled(w, e) && Abandoned(w, n)
    ensures Abandoned(Next(w, e), n)
  {
    hide Inv, AfterReadDatagram, AfterTakeSignal, AfterPoll, Changes;
    EventChanges(w, e, n);
    NeverServedAgain(w, e, n);
    match e
    case ReadDatagram(newPid, fd) => ReadDatagramStep(w, newPid, fd);
    case TakeSignal => SignalLeavesProcesses(w);
    case Poll(newPid) => PollLeavesApps(w, newPid);
    case Deliver(_) => assert Next(w, e).procs == w.procs;
    case Select => assert Next(w, e).procs == w.procs;
    case EndReap => assert Next(w, e).procs == w.procs;
    case _ => BoosterLeavesApps(w, e, n);
  }

  lemma BoosterLeavesApps(w: World, e: Event, n: nat)
    requires Inv(w) && Enabled(w, e) && n < |w.conns| && !BoosterOnly(w.conns[n].stage)
    requires e.Accept? || e.SendWord? || e.Lose? || e.FinishLosing? || e.Launch? || e.Die?
    requires forall p :: p in w.procs ==> w.procs[p].app != Some(n)
    ensures forall p :: p in Next(w, e).procs ==> Next(w, e).procs[p].app != Some(n)
  {
    hide Inv, Script;
    if e.Launch? {
      ServesItsOwn(w, e.p);
    }
  }

  lemma NeverServedAgain(w: World, e: Event, n: nat)
    requires Enabled(w, e) && n < |w.conns| && n < |Next(w, e).conns| && !BoosterOnly(w.conns[n].stage)
    requires Changes(w, e, n, w.conns[n], Next(w, e).conns[n])
    ensures !BoosterOnly(Next(w, e).conns[n].stage)
  {
    hide Enabled, Next;
  }

  lemma ServesItsOwn(w: World, p: int)
    requires Inv(w) && IsServing(w, p)
    ensures BoosterOnly(Served(w, p).stage)
  {
    ServerFacts(w, p);
  }

  lemma PollLeavesApps(w: World, newPid: int)
    requires Inv(w) && Enabled(w, Poll(newPid))
    ensures forall q :: q in AfterPoll(w, newPid).procs ==>
              || (q in w.procs && AfterPoll(w, newPid).procs[q] == w.procs[q])
              || AfterPoll(w, newPid).procs[q].app == None
    ensures DeadAt(w, w.pc.i) ==>
              var pid := w.d.children[w.pc.i];
              pid in AfterPoll(w, newPid).procs ==> AfterPoll(w, newPid).procs[pid].app == None
  {
    hide Inv, FarewellEffects, Settle, AfterEffects, AfterDeath;
    if DeadAt(w, w.pc.i) {
      var pid := w.d.children[w.pc.i];
      var status := w.procs[pid].phase.status;
      SettleLeavesDaemon(w, pid, status);
      EffectsLeaveDaemon(Settle(w, pid, status), FarewellEffects(w.d, pid, status));
    }
  }

  lemma ReapingAbandons(w: World, e: Event)
    requires Inv(w) && Attributed(w) && Enabled(w, e) && ReapsUnread(w, e)
    ensures Abandoned(Next(w, e), w.queue[0].conn)
  {
    hide InvHeld, InvSettled, InvConns, InvQueue, InvProcs, InvMode, InvDaemon, ConnOk, AfterPoll, Changes;
    var n := w.queue[0].conn;
    QueueFacts(w);
    AppsExist(w);
    PollLeavesApps(w, e.newPid);
    EventChanges(w, e, n);
    NeverServedAgain(w, e, n);
  }

  lemma {:induction false} AbandonedFrom(ws: seq<World>, es: seq<Event>, j: nat, k: nat)
    requires IsRun(ws, es) && j < k <= |es| && Attributed(ws[j]) && ReapsUnread(ws[j], es[j])
    ensures Abandoned(ws[k], ws[j].queue[0].conn)
    decreases k
  {
    hide Inv, Attributed, Abandoned, Next;
    RunsKeepInvariant(ws, es, k - 1);
    if k == j + 1 {
      ReapingAbandons(ws[j], es[j]);
    } else {
      AbandonedFrom(ws, es, j, k - 1);
      StaysAbandoned(ws[k - 1], es[k - 1], ws[j].queue[0].conn);
    }
  }

  /** Once the daemon has reaped the current booster over its unread datagram, the invoker that datagram is about
      never gets its own application's status.  In every later state of every run no process is the one launched for
      it; while the daemon holds its connection, that is mapped to a process launched for another or for none; and
      the step that settles it does so for the end of such a process. */
  lemma StatusLost(ws: seq<World>, es: seq<Event>, j: nat, k: nat)
    requires IsRun(ws, es) && j < k <= |es| && Attributed(ws[j]) && ReapsUnread(ws[j], es[j])
    ensures var n, w := ws[j].queue[0].conn, ws[k];
            && n < |w.conns|
            && (forall p :: p in w.procs ==> w.procs[p].app != Some(n))
            && (w.conns[n].stage == Held ==>
                  exists p :: p in w.d.invokerFd && MappedTo(w, p, w.d.invokerFd[p], n) && p in w.procs)
    ensures var n, w := ws[j].queue[0].conn, ws[k];
            k < |es| && w.conns[n].stage == Held && n < |ws[k + 1].conns| && ws[k + 1].conns[n].stage != Held ==>
              && es[k].Poll? && DeadAt(w, w.pc.i)
              && var pid := w.d.children[w.pc.i];
              && w.procs[pid].app != Some(n)
              && ws[k + 1].conns[n].stage == Settled(w.procs[pid].phase.status)
  {
    hide InvHeld, InvSettled, InvConns, InvQueue, InvProcs, InvMode, Attributed, Next, MappedTo;
    var n := ws[j].queue[0].conn;
    AbandonedFrom(ws, es, j, k);
    RunsKeepInvariant(ws, es, k);
    if ws[k].conns[n].stage == Held {
      Conservation(ws, es, k, n);
      if k < |es| {
        HeldUntilChildDies(ws[k], es[k], n);
      }
    }
  }

  // ---- a run in which an invoker gets another application's status ----

  ghost predicate Reachable(w: World) { exists ws, es :: IsRun(ws, es) && ws[|es|] == w }

  lemma ReachNext(w: World, e: Event, w': World)
    requires Reachable(w) && Enabled(w, e) && w' == Next(w, e)
    ensures Reachable(w')
  {
    hide Enabled, Next;
    var ws, es :| IsRun(ws, es) && ws[|es|] == w;
    var ws', es' := ws + [w'], es + [e];
    assert IsRun(ws', es') && ws'[|es'|] == w';
  }

  lemma ReachInit(boot: bool, pid: int)
    requires 0 < pid < 0x1_0000_0000
    ensures Reachable(Init(boot, pid))
  {
    var ws, es: seq<Event> := [Init(boot, pid)], [];
    assert IsRun(ws, es) && ws[|es|] == Init(boot, pid);
  }

  function Greeted(p: word, invoker: int): Conn {
    Conn(invoker, true, p, [MSG_ACK, MSG_PID, p], 0, Greeting, None)
  }

  /** A waiting booster accepts a waiting invoker and acknowledges. */
  lemma Serve(w: World, p: int, invoker: int, w': World)
    requires Reachable(w) && p in w.procs && w.procs[p].phase == Waiting && 0 < p < 0x1_0000_0000 && invoker > 0
    requires w' == SetPhase(w, p, Serving(|w.conns|)).(conns := w.conns + [Greeted(p, invoker)])
    ensures Reachable(w')
  {
    hide Reachable;
    var n := |w.conns|;
    var w1 := Next(w, Accept(p, invoker, true));
    ReachNext(w, Accept(p, invoker, true), w1);
    ServeWord(w1, p, n);
    var w2 := Next(w1, SendWord(p));
    ServeWord(w2, p, n);
    var w3 := Next(w2, SendWord(p));
    ServeWord(w3, p, n);
    var w4 := Next(w3, SendWord(p));
    assert w4.conns[n].reply == [MSG_ACK, MSG_PID, p];
    assert w4.conns == w'.conns;
    assert w4 == w';
  }

  lemma ServeWord(w: World, p: int, n: nat)
    requires Reachable(w) && p in w.procs && w.procs[p].phase == Serving(n) && n < |w.conns| && !ScriptDone(w.conns[n])
    ensures Enabled(w, SendWord(p)) && Reachable(Next(w, SendWord(p)))
    ensures Next(w, SendWord(p)) ==
            SetConn(w, n, w.conns[n].(reply := w.conns[n].reply + [Script(w.conns[n])[|w.conns[n].reply|]]))
  {
    hide Reachable;
    ReachNext(w, SendWord(p), Next(w, SendWord(p)));
  }

  /** A greeted application is launched, and ends. */
  lemma LaunchAndDie(w: World, p: int, n: nat, code: int, w': World)
    requires Reachable(w) && p in w.procs && w.procs[p].phase == Serving(n) && n < |w.conns|
    requires w.conns[n] == Greeted(w.conns[n].pid, w.conns[n].invoker) && 0 <= code < 0x100
    requires w' == w.(procs := w.procs[p := w.procs[p].(phase := Dead(Exited(code)), app := Some(n))],
                      conns := w.conns[n := w.conns[n].(stage := Queued, appStatus := Some(Exited(code)))],
                      queue := w.queue + [Datagram(w.conns[n].invoker, n, w.procs[p].born)])
    ensures Reachable(w')
  {
    hide Reachable;
    var w1 := Next(w, Launch(p));
    ReachNext(w, Launch(p), w1);
    ReachNext(w1, Die(p, Exited(code)), w');
  }

  /** A booster as it is forked. */
  function New(born: nat): Proc { Proc(born, false, false, Waiting, None) }

  /** Invoker 6 does not wait: its application runs in process 99, and process 100 has been forked. */
  const FIRST := Conn(6, false, 99, [MSG_ACK], 0, Over, None)
  const STARTED := World(State([99, 100], 100, false, map[], map[]),
                         map[99 := New(0).(phase := Running(0), app := Some(0)), 100 := New(1)],
                         [FIRST], map[], [], [], Idle, 2, [], [])

  /** The first application has ended, and select has reported the SIGCHLD for it and nothing else.  Then invoker 7's
      application was launched in process 100, and has ended with 3. */
  const FIRST_ENDED := FIRST.(appStatus := Some(Exited(0)))
  const ENDED := World(State([99, 100], 100, false, map[], map[]),
                       map[99 := New(0).(phase := Dead(Exited(0)), app := Some(0)),
                           100 := New(1).(phase := Dead(Exited(3)), app := Some(1))],
                       [FIRST_ENDED, Greeted(100, 7).(stage := Queued, appStatus := Some(Exited(3)))],
                       map[], [Datagram(7, 1, 1)], [CHLD], Picked(false, true), 2, [], [])

  /** reapZombies has buried both with the datagram unread, and forked process 101. */
  const UNREAD := World(State([101], 101, false, map[], map[]), map[101 := New(2)],
                        ENDED.conns, map[], [Datagram(7, 1, 1)], [], Reaping(0), 3, [], [])

  /** The datagram has been put down to process 101. */
  const MISREAD := World(State([101, 102], 102, false, map[101 := 7], map[101 := 9]),
                         map[101 := New(2), 102 := New(3)],
                         [FIRST_ENDED, Greeted(100, 7).(stage := Held, appStatus := Some(Exited(3)))],
                         map[9 := 1], [], [], Idle, 4, [], [])

  const GREETED := World(State([99], 99, false, map[], map[]), map[99 := New(0).(phase := Serving(0))],
                         [FIRST.(stage := Greeting)], map[], [], [], Idle, 1, [], [])

  lemma FirstGreeted()
    ensures Reachable(GREETED)
  {
    hide Reachable;
    var w0 := Init(false, 99);
    ReachInit(false, 99);
    var w1 := Next(w0, Accept(99, 6, false));
    ReachNext(w0, Accept(99, 6, false), w1);
    var c := Conn(6, false, 99, [], 0, Greeting, None);
    assert w1.conns == [c] && w1.procs == GREETED.procs;
    ServeWord(w1, 99, 0);
    assert Greetings(c)[0] == MSG_ACK && c.reply + [MSG_ACK] == [MSG_ACK];
    assert Next(w1, SendWord(99)).conns == GREETED.conns;
  }

  lemma FirstStarted()
    ensures Reachable(STARTED)
  {
    hide Reachable;
    FirstGreeted();
    var w1 := GREETED.(procs := map[99 := STARTED.procs[99]], conns := [FIRST.(stage := Queued)],
                       queue := [Datagram(0, 0, 0)]);
    ReachNext(GREETED, Launch(99), w1);
    var w2 := w1.(pc := Picked(true, false));
    ReachNext(w1, Select, w2);
    assert w1.procs[100 := New(1)] == STARTED.procs;
    ReachNext(w2, ReadDatagram(100, 9), STARTED);
  }

  lemma ApplicationEnded()
    ensures Reachable(ENDED)
  {
    hide Reachable;
    FirstStarted();
    var w := STARTED.(procs := STARTED.procs[100 := New(1).(phase := Serving(1))], conns := [FIRST, Greeted(100, 7)]);
    Serve(STARTED, 100, 7, w);
    var w1 := Next(w, Die(99, Exited(0)));
    ReachNext(w, Die(99, Exited(0)), w1);
    assert w1.conns == [FIRST_ENDED, Greeted(100, 7)];
    var w2 := w1.(pipe := [CHLD]);
    ReachNext(w1, Deliver(CHLD), w2);
    var w3 := w2.(pc := Picked(false, true));
    ReachNext(w2, Select, w3);
    LaunchAndDie(w3, 100, 1, 3, ENDED);
  }

  lemma UnreadBoosterReaped()
    ensures Reachable(UNREAD)
  {
    hide Reachable;
    ApplicationEnded();
    var w := ENDED.(pipe := [], pc := Reaping(0));
    ReachNext(ENDED, TakeSignal, w);
    FarewellUnmapped(w, 99, Exited(0));
    var w1 := w.(d := w.d.(children := [100]), procs := map[100 := ENDED.procs[100]]);
    assert w.procs - {99} == w1.procs;
    ReachNext(w, Poll(101), w1);
    FarewellUnmapped(w1, 100, Exited(3));
    assert (w1.procs - {100})[101 := New(2)] == UNREAD.procs;
    ReachNext(w1, Poll(101), UNREAD);
  }

  lemma DatagramMisread()
    ensures Reachable(MISREAD)
  {
    hide Reachable;
    UnreadBoosterReaped();
    var w1, w2 := UNREAD.(pc := Reaping(1)), UNREAD.(pc := Idle);
    ReachNext(UNREAD, Poll(102), w1);
    ReachNext(w1, EndReap, w2);
    var w3 := UNREAD.(pc := Picked(true, false));
    ReachNext(w2, Select, w3);
    ReachNext(w3, ReadDatagram(102, 9), MISREAD);
  }

  /** Invoker 7's application ended with 3, and it is told 5. */
  ghost predicate ToldWrong(w: World) {
    && |w.conns| == 3 && w.conns[1].invoker == 7 && w.conns[1].appStatus == Some(Exited(3))
    && w.conns[1].reply == WholeReply(100, 5)
  }

  /** Process 101 has become the application of invoker 8, and it has ended with 5. */
  const SECOND_ENDED := World(MISREAD.d, map[101 := New(2).(phase := Dead(Exited(5)), app := Some(2)), 102 := New(3)],
                              MISREAD.conns + [Greeted(101, 8).(stage := Queued, appStatus := Some(Exited(5)))],
                              map[9 := 1], [Datagram(8, 2, 2)], [], Idle, 4, [], [])

  lemma SecondEnded()
    ensures Reachable(SECOND_ENDED)
  {
    hide Reachable;
    DatagramMisread();
    var w := MISREAD.(procs := map[101 := New(2).(phase := Serving(2)), 102 := New(3)],
                      conns := MISREAD.conns + [Greeted(101, 8)]);
    Serve(MISREAD, 101, 8, w);
    LaunchAndDie(w, 101, 2, 5, SECOND_ENDED);
  }

  lemma WrongStatusDelivered()
    ensures exists w :: Reachable(w) && ToldWrong(w)
  {
    hide Reachable, ToldWrong;
    SecondEnded();
    var w1 := SECOND_ENDED.(pipe := [CHLD]);
    ReachNext(SECOND_ENDED, Deliver(CHLD), w1);
    var w2 := w1.(pc := Picked(true, true));
    ReachNext(w1, Select, w2);
    WrongStatusWritten(w2);
  }

  lemma WrongStatusWritten(w: World)
    requires Reachable(w) && |w.conns| == 3 && w.conns[1] == MISREAD.conns[1] && w.d == MISREAD.d
    requires w.procs == map[101 := New(2).(phase := Dead(Exited(5)), app := Some(2)), 102 := New(3)]
    requires w.fds == map[9 := 1] && w.pipe == [CHLD] && w.pc == Picked(true, true) && w.queue == [Datagram(8, 2, 2)]
    ensures exists w' :: Reachable(w') && ToldWrong(w')
  {
    hide Reachable, ToldWrong;
    var w1 := Next(w, ReadDatagram(103, 10));
    ReachNext(w, ReadDatagram(103, 10), w1);
    assert w1.d == State([101, 102, 103], 103, false, map[101 := 7, 102 := 8], map[101 := 9, 102 := 10]);
    assert w1.fds == map[9 := 1, 10 := 2] && w1.pc == Picked(false, true);
    assert w1.procs[101] == w.procs[101] && 101 in w1.procs && w1.conns[1] == w.conns[1];
    WrongStatusPolled(w1);
  }

  lemma WrongStatusPolled(w: World)
    requires Reachable(w) && |w.conns| == 3 && w.conns[1] == MISREAD.conns[1]
    requires w.d == State([101, 102, 103], 103, false, map[101 := 7, 102 := 8], map[101 := 9, 102 := 10])
    requires 101 in w.procs && w.procs[101].phase == Dead(Exited(5))
    requires 9 in w.fds && w.fds[9] == 1 && w.pipe == [CHLD] && w.pc == Picked(false, true)
    ensures exists w' :: Reachable(w') && ToldWrong(w')
  {
    hide Reachable, ToldWrong, FarewellEffects, Settle, AfterEffects, AfterDeath;
    var w1 := Next(w, TakeSignal);
    ReachNext(w, TakeSignal, w1);
    assert w1 == w.(pipe := [], pc := Reaping(0));
    WrongStatusBuried(w1);
    ReachNext(w1, Poll(101), Next(w1, Poll(101)));
  }

  lemma WrongStatusBuried(w: World)
    requires |w.conns| == 3 && w.conns[1] == MISREAD.conns[1] && w.pc == Reaping(0)
    requires w.d == State([101, 102, 103], 103, false, map[101 := 7, 102 := 8], map[101 := 9, 102 := 10])
    requires 101 in w.procs && w.procs[101].phase == Dead(Exited(5)) && 9 in w.fds && w.fds[9] == 1
    ensures Enabled(w, Poll(101)) && ToldWrong(Next(w, Poll(101)))
  {
    hide FarewellEffects, Settle, AfterEffects, AfterDeath;
    FarewellMapped(w, 101, Exited(5), 9, 1);
    assert Farewelled(w.conns[1], Exited(5)).reply == WholeReply(100, 5);
  }
}
