/** What every reachable state of the system satisfies, whatever the schedule. */
module WorldInvariant {
  import opened Protocol
  import opened DaemonState
  import opened World

  // ---- the invariant, part by part ----

  /** The daemon's tables are consistent and its children are exactly the unreaped processes. */
  ghost predicate InvDaemon(w: World) {
    && Consistent(w.d)
    && (forall p :: p in w.d.children <==> p in w.procs)
    && (forall p :: p in w.procs ==> 0 < p < 0x1_0000_0000)
    && (w.pc.Reaping? ==> w.pc.i <= |w.d.children|)
  }

  /** The daemon's open descriptors are exactly its mapped ones. */
  ghost predicate MapsHeld(d: State, fds: map<int, nat>) {
    && (forall p :: p in d.invokerFd ==> d.invokerFd[p] in fds)
    && (forall f :: f in fds ==> exists p :: p in d.invokerFd && d.invokerFd[p] == f)
  }

  /** Each held connection is under one descriptor. */
  ghost predicate ConnsHeld(conns: seq<Conn>, fds: map<int, nat>) {
    && (forall f :: f in fds ==> fds[f] < |conns| && conns[fds[f]].stage == Held)
    && (forall f, g :: f in fds && g in fds && fds[f] == fds[g] ==> f == g)
    && (forall n :: 0 <= n < |conns| && conns[n].stage == Held ==> exists f :: f in fds && fds[f] == n)
  }

  /** A mapped process is mapped to one invoker: its pid and its connection belong together. */
  ghost predicate Paired(d: State, conns: seq<Conn>, fds: map<int, nat>) {
    forall p :: p in d.invokerFd && p in d.invokerPid && d.invokerFd[p] in fds && fds[d.invokerFd[p]] < |conns|
      ==> d.invokerPid[p] == conns[fds[d.invokerFd[p]]].invoker
  }

  ghost predicate InvHeld(w: World) {
    MapsHeld(w.d, w.fds) && ConnsHeld(w.conns, w.fds) && Paired(w.d, w.conns, w.fds)
  }

  ghost predicate InvQueue(w: World) {
    && (forall k :: 0 <= k < |w.queue| ==>
          var g := w.queue[k];
          && g.conn < |w.conns| && w.conns[g.conn].stage == Queued
          && g.invoker == (if w.conns[g.conn].wait then w.conns[g.conn].invoker else 0))
    && (forall j, k :: 0 <= j < k < |w.queue| ==> w.queue[j].conn != w.queue[k].conn)
    && (forall n :: 0 <= n < |w.conns| && w.conns[n].stage == Queued ==>
          exists k :: 0 <= k < |w.queue| && w.queue[k].conn == n)
  }

  /** A connection being served is served by the process whose pid it was given; a launched application's
      end is recorded with the connection it was launched for. */
  ghost predicate ProcOk(w: World, p: int)
    requires p in w.procs
  {
    var q := w.procs[p];
    && (q.phase.Serving? ==> q.phase.conn < |w.conns| && w.conns[q.phase.conn].pid == p && q.app == None
                             && (w.conns[q.phase.conn].stage == Greeting || w.conns[q.phase.conn].stage.Answering?))
    && (q.phase.Waiting? ==> q.app == None)
    && (q.phase.Running? ==> q.app == Some(q.phase.conn))
    && (q.app.Some? ==> q.app.value < |w.conns| && w.conns[q.app.value].pid == p
                        && w.conns[q.app.value].stage != Greeting && !w.conns[q.app.value].stage.Answering?)
    && (q.app.Some? && q.phase.Dead? ==> w.conns[q.app.value].appStatus == Some(q.phase.status))
    && (q.phase.Dead? && q.phase.status.Exited? ==> 0 <= q.phase.status.code < 0x100)
  }

  ghost predicate InvProcs(w: World) {
    && (forall p :: p in w.procs ==> ProcOk(w, p))
    && (forall p :: p in w.procs ==> w.procs[p].born < w.births)
    && (forall p, q :: p in w.procs && q in w.procs && w.procs[p].born == w.procs[q].born ==> p == q)
  }

  /** The reply written so far, and how often the daemon has closed the connection. */
  ghost predicate ConnOk(c: Conn) {
    && c.invoker > 0 && c.pid != 0
    && c.closes == (if c.stage.Settled? then 1 else 0)
    && match c.stage
       case Greeting => c.reply <= Greetings(c)
       case Answering(code) => c.wait && Greetings(c) <= c.reply <= Greetings(c) + ExitFrame(code)
       case Queued => c.reply == Greetings(c)
       case Held => c.wait && c.reply == Greetings(c)
       case Settled(status) =>
         c.wait && (match status
                    case Exited(code) => 0 <= code < 0x100 && c.reply == Greetings(c) + ExitFrame(code)
                    case Signaled(_) => c.reply == Greetings(c))
       case Over => c.reply <= Greetings(c) || (c.wait && exists code :: c.reply <= Greetings(c) + ExitFrame(code))
  }

  ghost predicate InvConns(w: World) { forall n :: 0 <= n < |w.conns| ==> ConnOk(w.conns[n]) }

  /** The signals sent to invokers, in order: one for each settled connection whose child was signaled. */
  function KillsOf(settled: seq<(nat, int, Status)>): seq<(int, int)> {
    if settled == [] then []
    else
      var n := |settled| - 1;
      KillsOf(settled[..n]) +
      if settled[n].2.Signaled? then [(settled[n].1, settled[n].2.sig)] else []
  }

  ghost predicate SettledOk(conns: seq<Conn>, entry: (nat, int, Status)) {
    entry.0 < |conns| && conns[entry.0].stage == Settled(entry.2) && conns[entry.0].invoker == entry.1
  }

  ghost predicate Listed(settled: seq<(nat, int, Status)>, n: nat) {
    exists k :: 0 <= k < |settled| && settled[k].0 == n
  }

  /** The settled connections, each once, in the order in which they were settled. */
  ghost predicate InvList(conns: seq<Conn>, settled: seq<(nat, int, Status)>) {
    && (forall k :: 0 <= k < |settled| ==> SettledOk(conns, settled[k]))
    && (forall j, k :: 0 <= j < k < |settled| ==> settled[j].0 != settled[k].0)
    && (forall n :: 0 <= n < |conns| && conns[n].stage.Settled? ==> Listed(settled, n))
  }

  ghost predicate InvSettled(w: World) {
    InvList(w.conns, w.settled) && w.kills == KillsOf(w.settled)
  }

  /** The current booster was forked in the daemon's present mode, or has been told to end. */
  ghost predicate InvMode(w: World) {
    w.d.boosterPid in w.procs && (w.procs[w.d.boosterPid].mode == w.d.bootMode || w.procs[w.d.boosterPid].termed)
  }

  ghost predicate Inv(w: World) {
    InvDaemon(w) && InvHeld(w) && InvQueue(w) && InvProcs(w) && InvConns(w) && InvSettled(w) && InvMode(w)
  }

  lemma InitInv(boot: bool, pid: int)
    requires 0 < pid < 0x1_0000_0000
    ensures Inv(Init(boot, pid))
  {
  }

  // ---- one connection changes or is added ----

  ghost predicate ConnStep(w: World, w': World, n: nat, c: Conn) {
    && n <= |w.conns|
    && |w'.conns| == (if n < |w.conns| then |w.conns| else n + 1)
    && w'.conns[n] == c
    && forall k :: 0 <= k < |w.conns| && k != n ==> w'.conns[k] == w.conns[k]
  }

  /** The stage of connection n, before the step. */
  predicate Was(w: World, n: nat, stage: Stage) { n < |w.conns| && w.conns[n].stage == stage }

  lemma HeldKept(w: World, w': World, n: nat, c: Conn)
    requires InvHeld(w) && ConnStep(w, w', n, c) && w'.d == w.d && w'.fds == w.fds
    requires !Was(w, n, Held) && c.stage != Held
    ensures InvHeld(w')
  {
    PairedKept(w.d, w.fds, w.conns, w'.conns);
    ConnsHeldKept(w, w', n, c);
    hide MapsHeld, Paired, ConnsHeld;
  }

  lemma ConnsHeldKept(w: World, w': World, n: nat, c: Conn)
    requires ConnsHeld(w.conns, w.fds) && ConnStep(w, w', n, c) && w'.fds == w.fds
    requires !Was(w, n, Held) && c.stage != Held
    ensures ConnsHeld(w'.conns, w'.fds)
  {
    forall m | 0 <= m < |w'.conns| && w'.conns[m].stage == Held ensures exists f :: f in w'.fds && w'.fds[f] == m {
      assert m < |w.conns| && w.conns[m].stage == Held;
    }
  }

  /** Pairs stay pairs when the maps stay and the held connections keep their invokers. */
  lemma PairedKept(d: State, fds: map<int, nat>, conns: seq<Conn>, conns': seq<Conn>)
    requires Paired(d, conns, fds)
    requires forall f :: f in fds ==>
               fds[f] < |conns| && fds[f] < |conns'| && conns'[fds[f]].invoker == conns[fds[f]].invoker
    ensures Paired(d, conns', fds)
  {
    forall p | p in d.invokerFd && p in d.invokerPid && d.invokerFd[p] in fds && fds[d.invokerFd[p]] < |conns'|
      ensures d.invokerPid[p] == conns'[fds[d.invokerFd[p]]].invoker
    {
      var f := d.invokerFd[p];
      assert f in fds && fds[f] < |conns|;
    }
  }

  lemma QueueKept(w: World, w': World, n: nat, c: Conn)
    requires InvQueue(w) && ConnStep(w, w', n, c) && w'.queue == w.queue
    requires !Was(w, n, Queued) && c.stage != Queued
    ensures InvQueue(w')
  {
  }

  lemma ConnsKept(w: World, w': World, n: nat, c: Conn)
    requires InvConns(w) && ConnStep(w, w', n, c) && ConnOk(c)
    ensures InvConns(w')
  {
    hide ConnOk;
  }

  lemma SettledKept(w: World, w': World, n: nat, c: Conn)
    requires InvSettled(w) && ConnStep(w, w', n, c) && w'.settled == w.settled && w'.kills == w.kills
    requires (n < |w.conns| ==> !w.conns[n].stage.Settled?) && !c.stage.Settled?
    ensures InvSettled(w')
  {
    hide KillsOf;
    forall k | 0 <= k < |w.settled| ensures SettledOk(w'.conns, w.settled[k]) {
      assert SettledOk(w.conns, w.settled[k]);
    }
    forall m | 0 <= m < |w'.conns| && w'.conns[m].stage.Settled? ensures Listed(w'.settled, m) {
      assert m < |w.conns| && w.conns[m].stage.Settled?;
    }
  }

  /** The processes other than p keep their places: connection n is p's affair. */
  lemma ProcsKept(w: World, w': World, n: nat, c: Conn, p: int)
    requires InvProcs(w) && ConnStep(w, w', n, c) && p in w.procs && p in w'.procs && w'.births == w.births
    requires w'.procs == w.procs[p := w'.procs[p]] && w'.procs[p].born == w.procs[p].born
    requires c.pid == p && (n < |w.conns| ==> w.conns[n].pid == p)
    requires ProcOk(w', p)
    ensures InvProcs(w')
  {
    forall q | q in w'.procs ensures ProcOk(w', q) {
      if q != p {
        assert ProcOk(w, q);
      }
    }
  }

  /** What a step of a booster leaves alone. */
  ghost predicate BoosterStep(w: World, w': World, p: int, n: nat, c: Conn) {
    && ConnStep(w, w', n, c)
    && w'.d == w.d && w'.fds == w.fds && w'.pc == w.pc && w'.settled == w.settled && w'.kills == w.kills
    && w'.births == w.births
    && p in w.procs && p in w'.procs && w'.procs == w.procs[p := w'.procs[p]]
    && w'.procs[p].born == w.procs[p].born && w'.procs[p].mode == w.procs[p].mode
    && w'.procs[p].termed == w.procs[p].termed
    && c.pid == p && (n < |w.conns| ==> w.conns[n].pid == p)
  }

  predicate DaemonStage(s: Stage) { s == Held || s.Settled? }

  /** A step of booster p on its connection n keeps the invariant, as far as the queue does. */
  lemma BoosterStepKeeps(w: World, w': World, p: int, n: nat, c: Conn)
    requires Inv(w) && BoosterStep(w, w', p, n, c)
    requires (n < |w.conns| ==> !DaemonStage(w.conns[n].stage)) && !DaemonStage(c.stage)
    requires ConnOk(c) && ProcOk(w', p)
    requires InvQueue(w')
    ensures Inv(w')
  {
    hide InvHeld, InvSettled, InvConns, ConnOk, ProcOk, InvProcs, InvQueue;
    HeldKept(w, w', n, c);
    ConnsKept(w, w', n, c);
    SettledKept(w, w', n, c);
    ProcsKept(w, w', n, c, p);
  }

  lemma AcceptKeeps(w: World, p: int, invoker: int, wait: bool)
    requires Inv(w) && Enabled(w, Accept(p, invoker, wait))
    ensures Inv(AfterAccept(w, p, invoker, wait))
  {
    hide InvHeld, InvSettled, InvConns, InvProcs, InvQueue, InvDaemon;
    var w', c := AfterAccept(w, p, invoker, wait), Conn(invoker, wait, p, [], 0, Greeting, None);
    QueueKept(w, w', |w.conns|, c);
    assert w.procs[p].app == None by { assert InvProcs(w); ServerFacts(w, p); }
    BoosterStepKeeps(w, w', p, |w.conns|, c);
  }

  lemma ServerFacts(w: World, p: int)
    requires InvProcs(w) && InvConns(w) && p in w.procs
    ensures w.procs[p].phase == Waiting ==> w.procs[p].app == None
    ensures IsServing(w, p) ==> && Served(w, p).pid == p && w.procs[p].app == None && ConnOk(Served(w, p))
                                && (Served(w, p).stage == Greeting || Served(w, p).stage.Answering?)
    ensures w.procs[p].phase.Serving? ==> IsServing(w, p)
  {
    assert ProcOk(w, p);
  }

  lemma SendWordKeeps(w: World, p: int)
    requires Inv(w) && Enabled(w, SendWord(p))
    ensures Inv(AfterSendWord(w, p))
  {
    hide InvHeld, InvSettled, InvConns, InvProcs, InvQueue, InvDaemon;
    ServerFacts(w, p);
    var w', n := AfterSendWord(w, p), w.procs[p].phase.conn;
    var c := w'.conns[n];
    OneWordMore(Served(w, p), c);
    QueueKept(w, w', n, c);
    BoosterStepKeeps(w, w', p, n, c);
  }

  lemma OneWordMore(c: Conn, c': Conn)
    requires ConnOk(c) && !ScriptDone(c) && (c.stage == Greeting || c.stage.Answering?)
    requires c' == c.(reply := c.reply + [Script(c)[|c.reply|]])
    ensures ConnOk(c')
  {
  }

  lemma LoseKeeps(w: World, p: int, code: word)
    requires Inv(w) && Enabled(w, Lose(p, code))
    ensures Inv(AfterLose(w, p, code))
  {
    hide InvHeld, InvSettled, InvConns, InvProcs, InvQueue, InvDaemon;
    ServerFacts(w, p);
    var w', n := AfterLose(w, p, code), w.procs[p].phase.conn;
    var c := w'.conns[n];
    QueueKept(w, w', n, c);
    BoosterStepKeeps(w, w', p, n, c);
  }

  lemma FinishLosingKeeps(w: World, p: int)
    requires Inv(w) && Enabled(w, FinishLosing(p))
    ensures Inv(AfterFinishLosing(w, p))
  {
    hide InvHeld, InvSettled, InvConns, InvProcs, InvQueue, InvDaemon;
    ServerFacts(w, p);
    var w', n := AfterFinishLosing(w, p), w.procs[p].phase.conn;
    var c := w'.conns[n];
    QueueKept(w, w', n, c);
    BoosterStepKeeps(w, w', p, n, c);
  }

  lemma QueueGrows(w: World, w': World, n: nat, c: Conn, g: Datagram)
    requires InvQueue(w) && ConnStep(w, w', n, c) && w'.queue == w.queue + [g] && n < |w.conns|
    requires !Was(w, n, Queued) && c.stage == Queued
    requires g.conn == n && g.invoker == if c.wait then c.invoker else 0
    ensures InvQueue(w')
  {
    assert w'.queue[|w.queue|] == g;
    forall m | 0 <= m < |w'.conns| && w'.conns[m].stage == Queued
      ensures exists k :: 0 <= k < |w'.queue| && w'.queue[k].conn == m
    {
      if m != n {
        var k :| 0 <= k < |w.queue| && w.queue[k].conn == m;
        assert w'.queue[k].conn == m;
      }
    }
  }

  lemma LaunchKeeps(w: World, p: int)
    requires Inv(w) && Enabled(w, Launch(p))
    ensures Inv(AfterLaunch(w, p))
  {
    hide InvHeld, InvSettled, InvConns, InvProcs, InvQueue, InvDaemon;
    ServerFacts(w, p);
    var w', n := AfterLaunch(w, p), w.procs[p].phase.conn;
    var c := w'.conns[n];
    QueueGrows(w, w', n, c, w'.queue[|w.queue|]);
    BoosterStepKeeps(w, w', p, n, c);
  }

  // ---- a process ends ----

  /** A connection whose application has ended changes in nothing else. */
  lemma AppEnds(w: World, w': World, n: nat, status: Status)
    requires n < |w.conns| && ConnStep(w, w', n, w.conns[n].(appStatus := Some(status)))
    requires w'.d == w.d && w'.fds == w.fds && w'.queue == w.queue && w'.settled == w.settled && w'.kills == w.kills
    ensures InvHeld(w) ==> InvHeld(w')
    ensures InvQueue(w) ==> InvQueue(w')
    ensures InvConns(w) ==> InvConns(w')
    ensures InvSettled(w) ==> InvSettled(w')
  {
    assert ConnOk(w.conns[n]) ==> ConnOk(w'.conns[n]);
    hide KillsOf, ConnOk, InvHeld;
    if InvHeld(w) {
      AppEndsHeld(w, w', n, status);
    }
  }

  lemma AppEndsHeld(w: World, w': World, n: nat, status: Status)
    requires n < |w.conns| && ConnStep(w, w', n, w.conns[n].(appStatus := Some(status)))
    requires w'.d == w.d && w'.fds == w.fds && InvHeld(w)
    ensures InvHeld(w')
  {
    forall m | 0 <= m < |w'.conns| && w'.conns[m].stage == Held ensures exists f :: f in w'.fds && w'.fds[f] == m {
      assert w.conns[m].stage == Held;
      var f :| f in w.fds && w.fds[f] == m;
    }
  }

  lemma DieKeeps(w: World, p: int, status: Status)
    requires Inv(w) && Enabled(w, Die(p, status))
    ensures Inv(AfterDie(w, p, status))
  {
    hide InvHeld, InvSettled, InvConns, InvProcs, InvQueue, InvDaemon;
    ServerFacts(w, p);
    var w', phase := AfterDie(w, p, status), w.procs[p].phase;
    match phase
    case Serving(n) =>
      QueueKept(w, w', n, w'.conns[n]);
      BoosterStepKeeps(w, w', p, n, w'.conns[n]);
    case Running(n) =>
      RunningFacts(w, p);
      AppEnds(w, w', n, status);
      ProcsKept(w, w', n, w'.conns[n], p);
      DaemonKept(w, w');
    case _ =>
      SameTables(w, w');
      OnlyProcsKept(w, w', p);
      DaemonKept(w, w');
  }

  lemma RunningFacts(w: World, p: int)
    requires InvProcs(w) && p in w.procs && w.procs[p].phase.Running?
    ensures var n := w.procs[p].phase.conn;
            && n < |w.conns| && w.conns[n].pid == p && w.procs[p].app == Some(n)
            && w.conns[n].stage != Greeting && !w.conns[n].stage.Answering?
  {
    assert ProcOk(w, p);
  }

  lemma DaemonKept(w: World, w': World)
    requires InvDaemon(w) && w'.d == w.d && w'.procs.Keys == w.procs.Keys
    requires w'.pc == w.pc || !w'.pc.Reaping? || w'.pc.i <= |w.d.children|
    ensures InvDaemon(w')
  {
  }

  lemma SameTables(w: World, w': World)
    requires w'.d == w.d && w'.conns == w.conns && w'.fds == w.fds && w'.queue == w.queue
    requires w'.settled == w.settled && w'.kills == w.kills
    ensures InvHeld(w) ==> InvHeld(w')
    ensures InvQueue(w) ==> InvQueue(w')
    ensures InvConns(w) ==> InvConns(w')
    ensures InvSettled(w) ==> InvSettled(w')
  {
  }

  lemma OnlyProcsKept(w: World, w': World, p: int)
    requires InvProcs(w) && w'.conns == w.conns && w'.births == w.births
    requires p in w.procs && p in w'.procs && w'.procs == w.procs[p := w'.procs[p]]
    requires w'.procs[p].born == w.procs[p].born && ProcOk(w', p)
    ensures InvProcs(w')
  {
    forall q | q in w'.procs ensures ProcOk(w', q) {
      if q != p {
        assert ProcOk(w, q);
      }
    }
  }

  // ---- the daemon's place in its loop ----

  lemma PlaceKeeps(w: World, w': World)
    requires Inv(w) && w' == w.(pipe := w'.pipe, pc := w'.pc)
    requires !w'.pc.Reaping? || w'.pc.i <= |w.d.children|
    ensures Inv(w')
  {
    hide InvHeld, InvSettled, InvConns, InvQueue, InvDaemon, ProcOk;
    SameTables(w, w');
    DaemonKept(w, w');
    forall q | q in w'.procs ensures ProcOk(w', q) {
      SameProcOk(w, w', q);
    }
  }

  lemma SameProcOk(w: World, w': World, q: int)
    requires q in w.procs && q in w'.procs && w'.procs[q].(termed := w.procs[q].termed) == w.procs[q]
    requires w'.conns == w.conns && ProcOk(w, q)
    ensures ProcOk(w', q)
  {
  }

  // ---- a mode switch ----

  lemma ModeKeeps(w: World, boot: bool, pipe: seq<Signal>)
    requires Inv(w)
    ensures Inv(w.(d := AfterMode(w.d, boot), procs := Terminate(w.procs, ModeEffects(w.d, boot)),
                   pipe := pipe, pc := Idle))
  {
    hide InvSettled, InvConns, InvQueue, InvHeld, ProcOk;
    var w' := w.(d := AfterMode(w.d, boot), procs := Terminate(w.procs, ModeEffects(w.d, boot)),
                 pipe := pipe, pc := Idle);
    var b := w.d.boosterPid;
    SwitchTerminates(w.procs, w.d, boot);
    SameSettled(w, w');
    SameHeld(w, w');
    forall q | q in w'.procs ensures ProcOk(w', q) {
      SameProcOk(w, w', q);
    }
  }

  lemma SameHeld(w: World, w': World)
    requires w'.conns == w.conns && w'.fds == w.fds
    requires w'.d.invokerFd == w.d.invokerFd && w'.d.invokerPid == w.d.invokerPid
    ensures InvHeld(w) ==> InvHeld(w')
  {
  }

  lemma SameSettled(w: World, w': World)
    requires w'.conns == w.conns && w'.queue == w.queue && w'.settled == w.settled && w'.kills == w.kills
    ensures InvSettled(w) ==> InvSettled(w')
    ensures InvQueue(w) ==> InvQueue(w')
    ensures InvConns(w) ==> InvConns(w')
  {
  }

  /** A switch terminates the current booster and no other process; no switch terminates nothing. */
  lemma SwitchTerminates(procs: map<int, Proc>, d: State, boot: bool)
    requires d.boosterPid in procs && d.boosterPid > 0
    ensures Terminate(procs, ModeEffects(d, boot)) ==
            if d.bootMode != boot then procs[d.boosterPid := procs[d.boosterPid].(termed := true)] else procs
  {
    var es := ModeEffects(d, boot);
    if es != [] {
      assert es[1..] == [];
    }
  }

  lemma TakeSignalKeeps(w: World)
    requires Inv(w) && Enabled(w, TakeSignal)
    ensures Inv(AfterTakeSignal(w))
  {
    hide Inv, Terminate;
    match w.pipe[0]
    case USR1 => ModeKeeps(w, false, w.pipe[1..]);
    case USR2 => ModeKeeps(w, true, w.pipe[1..]);
    case _ => PlaceKeeps(w, AfterTakeSignal(w));
  }

  // ---- a datagram is read ----

  /** A booster is born: its pid is no unreaped process's. */
  lemma BirthKeepsProcs(w: World, w': World, newPid: int)
    requires InvProcs(w) && newPid !in w.procs && w'.births == w.births + 1
    requires newPid in w'.procs && w'.procs == w.procs[newPid := w'.procs[newPid]]
    requires w'.procs[newPid].born == w.births && w'.procs[newPid].phase == Waiting && w'.procs[newPid].app == None
    requires |w'.conns| == |w.conns|
    requires forall k :: 0 <= k < |w.conns| ==>
               && w'.conns[k].pid == w.conns[k].pid && w'.conns[k].appStatus == w.conns[k].appStatus
               && (BoosterOnly(w.conns[k].stage) || BoosterOnly(w'.conns[k].stage) ==>
                     w'.conns[k].stage == w.conns[k].stage)
    ensures InvProcs(w')
  {
    forall q | q in w'.procs ensures ProcOk(w', q) {
      if q != newPid {
        assert ProcOk(w, q);
      }
    }
  }

  predicate BoosterOnly(s: Stage) { s == Greeting || s.Answering? }

  lemma QueueShrinks(w: World, w': World, c: Conn)
    requires InvQueue(w) && w.queue != [] && w'.queue == w.queue[1..]
    requires ConnStep(w, w', w.queue[0].conn, c) && c.stage != Queued
    ensures InvQueue(w')
  {
    forall k | 0 <= k < |w'.queue| ensures w'.queue[k] == w.queue[k + 1] {
    }
    forall m | 0 <= m < |w'.conns| && w'.conns[m].stage == Queued
      ensures exists k :: 0 <= k < |w'.queue| && w'.queue[k].conn == m
    {
      var k :| 0 <= k < |w.queue| && w.queue[k].conn == m;
      assert k > 0 && w'.queue[k - 1].conn == m;
    }
  }

  /** The daemon gets hold of connection n under a descriptor that is free. */
  lemma HeldGrows(w: World, w': World, n: nat, c: Conn, fd: int)
    requires InvHeld(w) && n < |w.conns| && ConnStep(w, w', n, c) && c.stage == Held && !Was(w, n, Held)
    requires fd !in w.fds && w'.fds == w.fds[fd := n]
    requires w.d.boosterPid !in w.d.invokerFd
    requires w'.d.invokerFd == w.d.invokerFd[w.d.boosterPid := fd]
    requires w'.d.invokerPid == w.d.invokerPid[w.d.boosterPid := c.invoker]
    ensures InvHeld(w')
  {
    MapsGrow(w.d, w'.d, w.fds, w'.fds, fd, n);
    ConnsGrow(w, w', n, c, fd);
    forall p | p in w'.d.invokerFd && p in w'.d.invokerPid && w'.d.invokerFd[p] in w'.fds
               && w'.fds[w'.d.invokerFd[p]] < |w'.conns|
      ensures w'.d.invokerPid[p] == w'.conns[w'.fds[w'.d.invokerFd[p]]].invoker
    {
      if p != w.d.boosterPid {
        var f := w.d.invokerFd[p];
        assert f in w.fds && w.fds[f] < |w.conns| && w.conns[w.fds[f]].stage == Held;
      }
    }
    hide MapsHeld, ConnsHeld;
  }

  lemma MapsGrow(d: State, d': State, fds: map<int, nat>, fds': map<int, nat>, fd: int, n: nat)
    requires MapsHeld(d, fds) && d.boosterPid !in d.invokerFd
    requires fds' == fds[fd := n] && d'.invokerFd == d.invokerFd[d.boosterPid := fd]
    ensures MapsHeld(d', fds')
  {
    assert d'.invokerFd[d.boosterPid] == fd;
    forall f | f in fds' ensures exists p :: p in d'.invokerFd && d'.invokerFd[p] == f {
      if f != fd {
        var p :| p in d.invokerFd && d.invokerFd[p] == f;
        assert p in d'.invokerFd && d'.invokerFd[p] == f;
      }
    }
  }

  lemma ConnsGrow(w: World, w': World, n: nat, c: Conn, fd: int)
    requires ConnsHeld(w.conns, w.fds) && n < |w.conns| && ConnStep(w, w', n, c) && c.stage == Held && !Was(w, n, Held)
    requires fd !in w.fds && w'.fds == w.fds[fd := n]
    ensures ConnsHeld(w'.conns, w'.fds)
  {
    assert w'.fds[fd] == n;
    forall m | 0 <= m < |w'.conns| && w'.conns[m].stage == Held ensures exists f :: f in w'.fds && w'.fds[f] == m {
      if m != n {
        var f :| f in w.fds && w.fds[f] == m;
        assert f in w'.fds && w'.fds[f] == m;
      }
    }
  }

  lemma ReadDatagramKeeps(w: World, newPid: int, fd: int)
    requires Inv(w) && Enabled(w, ReadDatagram(newPid, fd))
    ensures Inv(AfterReadDatagram(w, newPid, fd))
  {
    hide InvHeld, InvSettled, InvConns, InvQueue, InvProcs, InvDaemon, InvMode, AfterReadDatagram, ConnOk;
    QueueFacts(w);
    ReadDatagramDaemon(w, newPid, fd);
    ReadDatagramHeld(w, newPid, fd);
    ReadDatagramStep(w, newPid, fd);
    var w' := AfterReadDatagram(w, newPid, fd);
    var n := w.queue[0].conn;
    QueueShrinks(w, w', w'.conns[n]);
    ConnsKept(w, w', n, w'.conns[n]);
    SettledKept(w, w', n, w'.conns[n]);
    BirthKeepsProcs(w, w', newPid);
  }

  /** Reading a datagram: its connection is held, or over if nobody waits, and a booster is born. */
  lemma ReadDatagramStep(w: World, newPid: int, fd: int)
    requires Inv(w) && Enabled(w, ReadDatagram(newPid, fd))
    ensures var w', n := AfterReadDatagram(w, newPid, fd), w.queue[0].conn;
            && n < |w.conns| && w.conns[n].stage == Queued && |w'.conns| == |w.conns|
            && ConnStep(w, w', n, w'.conns[n]) && ConnOk(w'.conns[n])
            && w'.conns[n] == w.conns[n].(stage := if w.queue[0].invoker != 0 then Held else Over)
            && w'.queue == w.queue[1..] && w'.settled == w.settled && w'.kills == w.kills
            && w'.births == w.births + 1 && newPid !in w.procs && newPid in w'.procs
            && w'.procs == w.procs[newPid := Proc(w.births, w.d.bootMode, false, Waiting, None)]
  {
    hide InvHeld, InvSettled, InvConns, InvQueue, InvProcs, InvDaemon, InvMode;
    QueueFacts(w);
  }

  lemma ReadDatagramHeld(w: World, newPid: int, fd: int)
    requires Inv(w) && Enabled(w, ReadDatagram(newPid, fd))
    ensures InvHeld(AfterReadDatagram(w, newPid, fd))
  {
    hide InvHeld, InvSettled, InvConns, InvQueue, InvProcs, InvDaemon;
    QueueFacts(w);
    var w' := AfterReadDatagram(w, newPid, fd);
    var g, n := w.queue[0], w.queue[0].conn;
    if g.invoker != 0 {
      HeldGrows(w, w', n, w'.conns[n], fd);
    } else {
      HeldSame(w, w', n, w'.conns[n]);
    }
  }

  lemma ReadDatagramDaemon(w: World, newPid: int, fd: int)
    requires InvDaemon(w) && InvHeld(w) && Enabled(w, ReadDatagram(newPid, fd))
    ensures InvDaemon(AfterReadDatagram(w, newPid, fd)) && InvMode(AfterReadDatagram(w, newPid, fd))
  {
    hide InvHeld, AfterReadDatagram, Consistent;
    FreeDescriptor(w, fd);
    DatagramTables(w, newPid, fd);
    DatagramKeepsConsistent(w.d, w.queue[0].invoker, fd, newPid);
  }

  /** What reading a datagram does to the daemon's tables and to the processes. */
  lemma DatagramTables(w: World, newPid: int, fd: int)
    requires Enabled(w, ReadDatagram(newPid, fd))
    ensures var w', g := AfterReadDatagram(w, newPid, fd), w.queue[0];
            && w'.d == AfterDatagram(w.d, g.invoker, fd, newPid)
            && w'.d.children == w.d.children + [newPid] && w'.d.boosterPid == newPid && w'.d.bootMode == w.d.bootMode
            && w'.fds == (if g.invoker != 0 then w.fds[fd := g.conn] else w.fds)
            && w'.procs == w.procs[newPid := Proc(w.births, w.d.bootMode, false, Waiting, None)]
            && !w'.pc.Reaping?
            && (w.d.boosterPid != 0 ==>
                  w'.d.invokerFd == if g.invoker != 0 then w.d.invokerFd[w.d.boosterPid := fd] else w.d.invokerFd)
  {
  }

  lemma FreeDescriptor(w: World, fd: int)
    requires InvHeld(w) && fd !in w.fds
    ensures fd !in w.d.invokerFd.Values
  {
    forall p | p in w.d.invokerFd ensures w.d.invokerFd[p] != fd {
    }
  }

  /** What is known of the next datagram and of the current booster. */
  lemma QueueFacts(w: World)
    requires Inv(w) && w.queue != []
    ensures var g := w.queue[0];
            && g.conn < |w.conns| && w.conns[g.conn].stage == Queued && ConnOk(w.conns[g.conn])
            && g.invoker == (if w.conns[g.conn].wait then w.conns[g.conn].invoker else 0)
            && w.conns[g.conn].invoker > 0
    ensures w.d.boosterPid > 0 && w.d.boosterPid !in w.d.invokerFd && w.d.boosterPid in w.procs
  {
    assert ConnOk(w.conns[w.queue[0].conn]);
  }

  lemma HeldSame(w: World, w': World, n: nat, c: Conn)
    requires InvHeld(w) && ConnStep(w, w', n, c) && w'.fds == w.fds
    requires w'.d.invokerFd == w.d.invokerFd && w'.d.invokerPid == w.d.invokerPid
    requires !Was(w, n, Held) && c.stage != Held
    ensures InvHeld(w')
  {
    HeldKept(w, w'.(d := w.d), n, c);
    SameHeld(w'.(d := w.d), w');
  }

  // ---- a dead child is buried ----

  /** The connection of a mapped child after the farewell. */
  function Farewelled(c: Conn, status: Status): Conn
    requires status.Exited? ==> 0 <= status.code < 0x100
  {
    c.(stage := Settled(status), closes := c.closes + 1,
       reply := c.reply + if status.Exited? then ExitFrame(status.code) else [])
  }

  /** What is known of a mapped child. */
  ghost predicate MappedTo(w: World, pid: int, f: int, n: nat) {
    && pid in w.d.invokerPid && pid in w.d.invokerFd && w.d.invokerFd[pid] == f
    && f in w.fds && w.fds[f] == n && n < |w.conns|
    && w.conns[n].stage == Held && w.d.invokerPid[pid] == w.conns[n].invoker && w.conns[n].invoker > 0
  }

  lemma MappedFacts(w: World, pid: int)
    requires InvDaemon(w) && InvHeld(w) && InvConns(w) && pid in w.d.invokerFd
    ensures var f := w.d.invokerFd[pid]; f in w.fds && MappedTo(w, pid, f, w.fds[f])
    ensures pid != w.d.boosterPid
  {
    var f := w.d.invokerFd[pid];
    assert ConnOk(w.conns[w.fds[f]]);
  }

  lemma FarewellMapped(w: World, pid: int, status: Status, f: int, n: nat)
    requires MappedTo(w, pid, f, n) && (status.Exited? ==> 0 <= status.code < 0x100)
    ensures AfterEffects(Settle(w, pid, status), FarewellEffects(w.d, pid, status)) ==
            w.(conns := w.conns[n := Farewelled(w.conns[n], status)], fds := w.fds - {f},
               settled := w.settled + [(n, w.conns[n].invoker, status)],
               kills := w.kills + if status.Signaled? then [(w.conns[n].invoker, status.sig)] else [])
  {
    var es, w0 := FarewellEffects(w.d, pid, status), Settle(w, pid, status);
    var w1 := AfterEffect(w0, es[0]);
    var w2 := AfterEffect(w1, es[1]);
    assert es[1..] == [es[1]] && es[1..][1..] == [];
    assert AfterEffects(w2, []) == w2;
    assert AfterEffects(w1, es[1..]) == w2;
    assert AfterEffects(w0, es) == w2;
    var c := w.conns[n];
    assert w.kills + [] == w.kills && c.reply + [] == c.reply;
    assert w2.conns == w.conns[n := Farewelled(c, status)];
  }

  lemma FarewellUnmapped(w: World, pid: int, status: Status)
    requires pid !in w.d.invokerPid && pid !in w.d.invokerFd
    ensures AfterEffects(Settle(w, pid, status), FarewellEffects(w.d, pid, status)) == w
  {
  }

  lemma MapsShrink(d: State, d': State, fds: map<int, nat>, fds': map<int, nat>, pid: int)
    requires MapsHeld(d, fds) && Injective(d.invokerFd) && pid in d.invokerFd
    requires fds' == fds - {d.invokerFd[pid]} && d'.invokerFd == d.invokerFd - {pid}
    ensures MapsHeld(d', fds')
  {
    forall f | f in fds' ensures exists p :: p in d'.invokerFd && d'.invokerFd[p] == f {
      var p :| p in d.invokerFd && d.invokerFd[p] == f;
      assert p in d'.invokerFd && d'.invokerFd[p] == f;
    }
  }

  lemma ConnsShrink(w: World, w': World, f: int, n: nat, c: Conn)
    requires ConnsHeld(w.conns, w.fds) && f in w.fds && w.fds[f] == n && n < |w.conns|
    requires w'.fds == w.fds - {f} && ConnStep(w, w', n, c) && c.stage != Held
    ensures ConnsHeld(w'.conns, w'.fds)
  {
    forall m | 0 <= m < |w'.conns| && w'.conns[m].stage == Held ensures exists g :: g in w'.fds && w'.fds[g] == m {
      var g :| g in w.fds && w.fds[g] == m;
      assert g in w'.fds;
    }
  }

  lemma HeldShrinks(w: World, w': World, pid: int, f: int, n: nat, c: Conn)
    requires InvHeld(w) && Injective(w.d.invokerFd) && MappedTo(w, pid, f, n)
    requires w'.fds == w.fds - {f} && ConnStep(w, w', n, c) && c.stage != Held
    requires w'.d.invokerFd == w.d.invokerFd - {pid} && w'.d.invokerPid == w.d.invokerPid - {pid}
    ensures InvHeld(w')
  {
    MapsShrink(w.d, w'.d, w.fds, w'.fds, pid);
    ConnsShrink(w, w', f, n, c);
    forall p | p in w'.d.invokerFd && p in w'.d.invokerPid && w'.d.invokerFd[p] in w'.fds
               && w'.fds[w'.d.invokerFd[p]] < |w'.conns|
      ensures w'.d.invokerPid[p] == w'.conns[w'.fds[w'.d.invokerFd[p]]].invoker
    {
      var g := w.d.invokerFd[p];
      assert g in w.fds && g != f && w.fds[g] != n;
    }
    hide MapsHeld, ConnsHeld;
  }

  lemma SettledGrows(w: World, w': World, n: nat, status: Status)
    requires InvSettled(w) && n < |w.conns| && !w.conns[n].stage.Settled?
    requires status.Exited? ==> 0 <= status.code < 0x100
    requires ConnStep(w, w', n, Farewelled(w.conns[n], status))
    requires w'.settled == w.settled + [(n, w.conns[n].invoker, status)]
    requires w'.kills == w.kills + if status.Signaled? then [(w.conns[n].invoker, status.sig)] else []
    ensures InvSettled(w')
  {
    var k := |w.settled|;
    assert w'.settled[..k] == w.settled && w'.settled[k].0 == n;
    ListGrows(w, w', n, status);
    hide InvList;
  }

  lemma ListGrows(w: World, w': World, n: nat, status: Status)
    requires InvList(w.conns, w.settled) && n < |w.conns| && !w.conns[n].stage.Settled?
    requires status.Exited? ==> 0 <= status.code < 0x100
    requires ConnStep(w, w', n, Farewelled(w.conns[n], status))
    requires w'.settled == w.settled + [(n, w.conns[n].invoker, status)]
    ensures InvList(w'.conns, w'.settled)
  {
    forall k | 0 <= k < |w'.settled|
      ensures SettledOk(w'.conns, w'.settled[k]) && (k < |w.settled| ==> w'.settled[k].0 != n)
    {
      if k < |w.settled| {
        assert SettledOk(w.conns, w.settled[k]);
      }
    }
    forall m | 0 <= m < |w'.conns| && w'.conns[m].stage.Settled? ensures Listed(w'.settled, m) {
      if m == n {
        assert w'.settled[|w.settled|].0 == n;
      } else {
        assert Listed(w.settled, m);
        var j :| 0 <= j < |w.settled| && w.settled[j].0 == m;
        assert w'.settled[j].0 == m;
      }
    }
  }

  /** The processes without the dead one, and with the new booster if it was the booster. */
  lemma DeathKeepsProcs(w: World, w': World, pid: int, newPid: int, reforked: bool)
    requires InvProcs(w) && pid in w.procs && (newPid in w.procs ==> newPid == pid)
    requires reforked ==> w'.procs == (w.procs - {pid})[newPid := Proc(w.births, w.d.bootMode, false, Waiting, None)]
    requires !reforked ==> w'.procs == w.procs - {pid}
    requires w'.births == w.births + if reforked then 1 else 0
    requires |w'.conns| == |w.conns|
    requires forall k :: 0 <= k < |w.conns| ==>
               && w'.conns[k].pid == w.conns[k].pid && w'.conns[k].appStatus == w.conns[k].appStatus
               && (BoosterOnly(w.conns[k].stage) || BoosterOnly(w'.conns[k].stage) ==>
                     w'.conns[k].stage == w.conns[k].stage)
    ensures InvProcs(w')
  {
    forall q | q in w'.procs ensures ProcOk(w', q) {
      if !(reforked && q == newPid) {
        assert ProcOk(w, q);
      }
    }
  }

  lemma DeathDaemon(w: World, newPid: int)
    requires InvDaemon(w) && InvMode(w) && Enabled(w, Poll(newPid)) && DeadAt(w, w.pc.i)
    ensures var i, d := w.pc.i, AfterDeath(w.d, w.pc.i, newPid);
            && Consistent(d) && i <= |d.children|
            && (forall p :: p in d.children <==> (p in w.procs && p != w.d.children[i])
                                                  || (w.d.children[i] == w.d.boosterPid && p == newPid))
  {
    var i, pid := w.pc.i, w.d.children[w.pc.i];
    RemoveAt(w.d.children, i);
    var rest := w.d.children[..i] + w.d.children[i + 1..];
    assert newPid in rest ==> newPid in w.procs;
    DeathKeepsConsistent(w.d, i, newPid);
    hide Consistent;
    assert AfterDeath(w.d, i, newPid).children == if pid == w.d.boosterPid then rest + [newPid] else rest;
  }

  lemma PollAliveKeeps(w: World, newPid: int)
    requires Inv(w) && Enabled(w, Poll(newPid)) && !DeadAt(w, w.pc.i)
    ensures Inv(AfterPoll(w, newPid))
  {
    hide Inv;
    PlaceKeeps(w, AfterPoll(w, newPid));
  }

  lemma PollDeadKeeps(w: World, newPid: int)
    requires Inv(w) && Enabled(w, Poll(newPid)) && DeadAt(w, w.pc.i)
    ensures Inv(AfterPoll(w, newPid))
  {
    hide InvHeld, InvSettled, InvConns, InvQueue, InvProcs, InvDaemon, ConnOk, FarewellEffects, Settle, AfterEffects;
    var w', i, pid := AfterPoll(w, newPid), w.pc.i, w.d.children[w.pc.i];
    var status := w.procs[pid].phase.status;
    ExitCodeFits(w, pid);
    DeathDaemon(w, newPid);
    DeathMaps(w, newPid);
    BuriedDaemon(w, newPid);
    if pid in w.d.invokerFd {
      var f := w.d.invokerFd[pid];
      MappedFacts(w, pid);
      var n := w.fds[f];
      FarewellMapped(w, pid, status, f, n);
      BuriedMapped(w, w', pid, status, f, n);
      DeathKeepsProcs(w, w', pid, newPid, pid == w.d.boosterPid);
    } else {
      FarewellUnmapped(w, pid, status);
      SameSettled(w, w');
      SameHeld(w, w');
      DeathKeepsProcs(w, w', pid, newPid, pid == w.d.boosterPid);
    }
  }

  lemma ExitCodeFits(w: World, pid: int)
    requires InvProcs(w) && pid in w.procs && w.procs[pid].phase.Dead?
    ensures w.procs[pid].phase.status.Exited? ==> 0 <= w.procs[pid].phase.status.code < 0x100
  {
    assert ProcOk(w, pid);
  }

  lemma DeathMaps(w: World, newPid: int)
    requires InvDaemon(w) && w.pc.Reaping? && w.pc.i < |w.d.children|
    ensures var pid, d := w.d.children[w.pc.i], AfterDeath(w.d, w.pc.i, newPid);
            && (pid in w.d.invokerPid <==> pid in w.d.invokerFd)
            && Injective(w.d.invokerFd)
            && d.invokerFd == w.d.invokerFd - {pid} && d.invokerPid == w.d.invokerPid - {pid}
            && d.bootMode == w.d.bootMode
            && d.boosterPid == (if pid == w.d.boosterPid then newPid else w.d.boosterPid)
            && (pid !in w.d.invokerFd ==> d.invokerFd == w.d.invokerFd && d.invokerPid == w.d.invokerPid)
  {
    var pid := w.d.children[w.pc.i];
    assert pid in w.d.invokerPid <==> pid in w.d.invokerFd by { assert w.d.invokerPid.Keys == w.d.invokerFd.Keys; }
    hide Consistent;
    if pid !in w.d.invokerFd {
      assert w.d.invokerPid - {pid} == w.d.invokerPid && w.d.invokerFd - {pid} == w.d.invokerFd;
    }
  }

  lemma BuriedDaemon(w: World, newPid: int)
    requires InvDaemon(w) && InvMode(w) && Enabled(w, Poll(newPid)) && DeadAt(w, w.pc.i)
    ensures InvDaemon(AfterPoll(w, newPid)) && InvMode(AfterPoll(w, newPid))
  {
    DeathDaemon(w, newPid);
    DeathMaps(w, newPid);
    hide Consistent, FarewellEffects, Settle, AfterEffects, AfterDeath;
    var pid := w.d.children[w.pc.i];
    SettleLeavesDaemon(w, pid, w.procs[pid].phase.status);
    EffectsLeaveDaemon(Settle(w, pid, w.procs[pid].phase.status), FarewellEffects(w.d, pid, w.procs[pid].phase.status));
  }

  lemma SettleLeavesDaemon(w: World, pid: int, status: Status)
    ensures var w' := Settle(w, pid, status);
            w'.pc == w.pc && w'.procs == w.procs && w'.pipe == w.pipe && w'.queue == w.queue && w'.births == w.births
  {
  }

  lemma {:induction false} EffectsLeaveDaemon(w: World, es: seq<Effect>)
    ensures var w' := AfterEffects(w, es);
            w'.pc == w.pc && w'.procs == w.procs && w'.pipe == w.pipe && w'.queue == w.queue && w'.births == w.births
    decreases |es|
  {
    if es != [] {
      EffectsLeaveDaemon(AfterEffect(w, es[0]), es[1..]);
    }
  }

  lemma BuriedMapped(w: World, w': World, pid: int, status: Status, f: int, n: nat)
    requires Inv(w) && MappedTo(w, pid, f, n) && (status.Exited? ==> 0 <= status.code < 0x100)
    requires w'.conns == w.conns[n := Farewelled(w.conns[n], status)] && w'.fds == w.fds - {f}
    requires w'.settled == w.settled + [(n, w.conns[n].invoker, status)] && w'.queue == w.queue
    requires w'.kills == w.kills + if status.Signaled? then [(w.conns[n].invoker, status.sig)] else []
    requires w'.d.invokerFd == w.d.invokerFd - {pid} && w'.d.invokerPid == w.d.invokerPid - {pid}
    ensures InvHeld(w') && InvQueue(w') && InvConns(w') && InvSettled(w')
  {
    hide InvHeld, InvSettled, InvConns, InvQueue, InvProcs, ConnOk;
    var c := Farewelled(w.conns[n], status);
    assert Injective(w.d.invokerFd);
    HeldShrinks(w, w', pid, f, n, c);
    QueueKept(w, w', n, c);
    FarewelledOk(w, n, status);
    ConnsKept(w, w', n, c);
    SettledGrows(w, w', n, status);
  }

  lemma FarewelledOk(w: World, n: nat, status: Status)
    requires InvConns(w) && n < |w.conns| && w.conns[n].stage == Held && (status.Exited? ==> 0 <= status.code < 0x100)
    ensures ConnOk(Farewelled(w.conns[n], status))
  {
    assert ConnOk(w.conns[n]);
    assert w.conns[n].reply + [] == w.conns[n].reply;
  }

  // ---- every event, every run ----

  lemma EventKeeps(w: World, e: Event)
    requires Inv(w) && Enabled(w, e)
    ensures Inv(Next(w, e))
  {
    hide InvHeld, InvSettled, InvConns, InvQueue, InvProcs, InvMode, Consistent;
    match e
    case Accept(p, invoker, wait) => AcceptKeeps(w, p, invoker, wait);
    case SendWord(p) => SendWordKeeps(w, p);
    case Lose(p, code) => LoseKeeps(w, p, code);
    case FinishLosing(p) => FinishLosingKeeps(w, p);
    case Launch(p) => LaunchKeeps(w, p);
    case Die(p, status) => DieKeeps(w, p, status);
    case ReadDatagram(newPid, fd) => ReadDatagramKeeps(w, newPid, fd);
    case TakeSignal => TakeSignalKeeps(w);
    case Poll(newPid) =>
      if DeadAt(w, w.pc.i) {
        PollDeadKeeps(w, newPid);
      } else {
        PollAliveKeeps(w, newPid);
      }
    case _ => PlaceKeeps(w, Next(w, e));
  }

  lemma {:induction false} RunsKeepInvariant(ws: seq<World>, es: seq<Event>, k: nat)
    requires IsRun(ws, es) && k <= |es|
    ensures Inv(ws[k])
  {
    hide Inv;
    if k == 0 {
      var boot, pid :| 0 < pid < 0x1_0000_0000 && ws[0] == Init(boot, pid);
      InitInv(boot, pid);
    } else {
      RunsKeepInvariant(ws, es, k - 1);
      EventKeeps(ws[k - 1], es[k - 1]);
    }
  }
}
