/** What follows for whole runs: replies, connections, modes, and who gets whose exit status. */
module WorldTheorems {
  import opened Protocol
  import opened DaemonState
  import opened World
  import opened WorldInvariant

  // ---- the reply ----

  /** The whole reply to an invoker that waits. */
  function WholeReply(pid: word, code: word): seq<word> {
    [MSG_ACK, MSG_PID, pid, MSG_EXIT, code]
  }

  /** In every state of every run, what an invoker has been sent is a prefix of ACK, PID, pid, EXIT, status
      if it waits, and of ACK alone if it does not; an EXIT is there when the booster has reported that the
      application runs already, or when the daemon has settled the connection for a child that exited, and
      no connection is both. */
  lemma ReplyShape(ws: seq<World>, es: seq<Event>, k: nat, n: nat)
    requires IsRun(ws, es) && k <= |es| && n < |ws[k].conns|
    ensures var c := ws[k].conns[n];
            && (!c.wait ==> c.reply <= [MSG_ACK])
            && (c.wait ==> exists code :: c.reply <= WholeReply(c.pid, code))
            && (|c.reply| > 3 ==> c.stage.Answering? || c.stage == Over || (c.stage.Settled? && c.stage.status.Exited?))
            && (c.stage.Settled? && c.stage.status.Exited? ==>
                  0 <= c.stage.status.code < 0x100 && c.reply == WholeReply(c.pid, c.stage.status.code))
  {
    RunsKeepInvariant(ws, es, k);
    var c := ws[k].conns[n];
    assert ConnOk(c);
    ConnShape(c);
  }

  lemma ConnShape(c: Conn)
    requires ConnOk(c)
    ensures !c.wait ==> c.reply <= [MSG_ACK]
    ensures c.wait ==> exists code :: c.reply <= WholeReply(c.pid, code)
    ensures |c.reply| > 3 ==> c.stage.Answering? || c.stage == Over || (c.stage.Settled? && c.stage.status.Exited?)
    ensures c.stage.Settled? && c.stage.status.Exited? ==>
              0 <= c.stage.status.code < 0x100 && c.reply == WholeReply(c.pid, c.stage.status.code)
  {
    if c.wait {
      assert forall code :: Greetings(c) + ExitFrame(code) == WholeReply(c.pid, code);
      if c.stage.Answering? {
        assert c.reply <= WholeReply(c.pid, c.stage.code);
      } else if c.stage == Over && !(c.reply <= Greetings(c)) {
        var code :| c.reply <= Greetings(c) + ExitFrame(code);
        assert c.reply <= WholeReply(c.pid, code);
      } else if c.stage.Settled? && c.stage.status.Exited? {
        assert c.reply <= WholeReply(c.pid, c.stage.status.code);
      } else {
        assert c.reply <= Greetings(c) <= WholeReply(c.pid, 0);
      }
    }
  }

  // ---- conservation of the invokers' connections ----

  // What one event can make of a connection.

  /** Its booster writes a word to it. */
  predicate Written(w: World, e: Event, n: nat, c: Conn, c': Conn) {
    && e.SendWord? && e.p in w.procs && w.procs[e.p].phase == Serving(n) && BoosterOnly(c.stage) && !ScriptDone(c)
    && c' == c.(reply := c.reply + [Script(c)[|c.reply|]])
  }

  /** Its booster goes on with it, or ends, without writing. */
  predicate Moved(e: Event, c: Conn, c': Conn) {
    && (e.Lose? || e.FinishLosing? || e.Launch? || e.Die?) && BoosterOnly(c.stage)
    && !DaemonStage(c'.stage) && c' == c.(stage := c'.stage)
  }

  /** The daemon receives it, or lets it go if nobody waits. */
  predicate Received(w: World, e: Event, n: nat, c: Conn, c': Conn) {
    && e.ReadDatagram? && w.queue != [] && n == w.queue[0].conn && c.stage == Queued
    && c' == c.(stage := if w.queue[0].invoker != 0 then Held else Over)
  }

  /** The daemon finds the child mapped to it dead. */
  predicate Buried(w: World, e: Event, n: nat, c: Conn, c': Conn) {
    && e.Poll? && w.pc.Reaping? && DeadAt(w, w.pc.i) && c.stage == Held
    && var pid := w.d.children[w.pc.i];
       var status := w.procs[pid].phase.status;
    && (status.Exited? ==> 0 <= status.code < 0x100)
    && pid in w.d.invokerFd && w.d.invokerFd[pid] in w.fds && w.fds[w.d.invokerFd[pid]] == n
    && c' == Farewelled(c, status)
  }

  /** There is nothing else: what was written, how often it was closed and where it stands change in these ways only. */
  predicate Changes(w: World, e: Event, n: nat, c: Conn, c': Conn)
    requires Enabled(w, e)
  {
    || c' == c.(appStatus := c'.appStatus)
    || Written(w, e, n, c, c') || Moved(e, c, c') || Received(w, e, n, c, c') || Buried(w, e, n, c, c')
  }

  lemma BoosterChanges(w: World, e: Event, n: nat)
    requires Inv(w) && Enabled(w, e) && n < |w.conns|
    requires e.Accept? || e.SendWord? || e.Lose? || e.FinishLosing? || e.Launch? || e.Die?
    ensures n < |Next(w, e).conns| && Changes(w, e, n, w.conns[n], Next(w, e).conns[n])
  {
    hide InvHeld, InvSettled, InvConns, InvQueue, InvProcs, InvMode, InvDaemon, ConnOk, Script, ScriptDone;
    ServerFacts(w, e.p);
  }

  lemma ReadChanges(w: World, e: Event, n: nat)
    requires Inv(w) && Enabled(w, e) && n < |w.conns| && e.ReadDatagram?
    ensures n < |Next(w, e).conns| && Changes(w, e, n, w.conns[n], Next(w, e).conns[n])
    ensures n == w.queue[0].conn ==> Received(w, e, n, w.conns[n], Next(w, e).conns[n])
  {
    hide Inv, AfterReadDatagram;
    ReadDatagramStep(w, e.newPid, e.fd);
  }

  lemma PollChanges(w: World, newPid: int, n: nat)
    requires Inv(w) && Enabled(w, Poll(newPid)) && n < |w.conns|
    ensures |AfterPoll(w, newPid).conns| == |w.conns|
    ensures var c, c' := w.conns[n], AfterPoll(w, newPid).conns[n]; c' == c || Buried(w, Poll(newPid), n, c, c')
  {
    hide InvHeld, InvSettled, InvConns, InvQueue, InvProcs, InvMode, InvDaemon, ConnOk, FarewellEffects, Settle,
      AfterEffects;
    if DeadAt(w, w.pc.i) {
      var pid := w.d.children[w.pc.i];
      var status := w.procs[pid].phase.status;
      ExitCodeFits(w, pid);
      if pid in w.d.invokerFd {
        MappedFacts(w, pid);
        FarewellMapped(w, pid, status, w.d.invokerFd[pid], w.fds[w.d.invokerFd[pid]]);
      } else {
        DeathMaps(w, newPid);
        FarewellUnmapped(w, pid, status);
      }
    }
  }

  lemma SignalChanges(w: World)
    requires Enabled(w, TakeSignal)
    ensures AfterTakeSignal(w).conns == w.conns
  {
    hide Terminate, ModeEffects;
  }

  lemma EventChanges(w: World, e: Event, n: nat)
    requires Inv(w) && Enabled(w, e) && n < |w.conns|
    ensures n < |Next(w, e).conns| && Changes(w, e, n, w.conns[n], Next(w, e).conns[n])
  {
    hide Inv, Written, Moved, Received, Buried, AfterTakeSignal;
    match e
    case ReadDatagram(_, _) => ReadChanges(w, e, n);
    case Poll(newPid) => PollChanges(w, newPid, n);
    case TakeSignal => SignalChanges(w);
    case Deliver(_) =>
    case Select =>
    case EndReap =>
    case _ => BoosterChanges(w, e, n);
  }

  /** The words of an exit frame have one writer each: the booster that serves the connection, when the application
      runs already, or the daemon, when it lets go of the connection because the child mapped to it has exited. */
  lemma ExitHasOneSender(w: World, e: Event, n: nat)
    requires Inv(w) && Enabled(w, e) && n < |w.conns|
    ensures n < |Next(w, e).conns|
    ensures var c, c' := w.conns[n], Next(w, e).conns[n];
            |c'.reply| > |c.reply| && |c'.reply| > 3 ==>
              || (Written(w, e, n, c, c') && c.stage.Answering?)
              || (Buried(w, e, n, c, c') && c'.stage.Settled? && c'.stage.status.Exited?)
  {
    hide Inv, Next;
    EventChanges(w, e, n);
  }

  /** A connection the daemon holds stays held, under one descriptor and for one mapped child, until that child
      is found dead; then it is closed, with the child's exit code written before if it exited. */
  lemma HeldUntilChildDies(w: World, e: Event, n: nat)
    requires Inv(w) && Enabled(w, e) && n < |w.conns| && w.conns[n].stage == Held
    ensures n < |Next(w, e).conns|
    ensures var c := Next(w, e).conns[n];
            || (c.stage == Held && c.reply == w.conns[n].reply && c.closes == 0)
            || (&& e.Poll? && DeadAt(w, w.pc.i)
                && var pid := w.d.children[w.pc.i];
                   var status := w.procs[pid].phase.status;
                && pid in w.d.invokerFd && w.d.invokerFd[pid] in w.fds && w.fds[w.d.invokerFd[pid]] == n
                && c.stage == Settled(status) && c.closes == 1
                && c.reply == w.conns[n].reply + (if status.Exited? then ExitFrame(status.code) else []))
  {
    hide Inv, Next;
    EventChanges(w, e, n);
    HeldFacts(w, n);
  }

  lemma HeldFacts(w: World, n: nat)
    requires Inv(w) && n < |w.conns| && w.conns[n].stage == Held
    ensures w.conns[n].closes == 0 && w.conns[n].wait
  {
    assert ConnOk(w.conns[n]);
  }

  /** Held with nothing written since, or closed once, with the frame of a child that exited. */
  predicate KeptOrSettled(held: Conn, c: Conn) {
    match c.stage
    case Held => c.closes == 0 && c.reply == held.reply
    case Settled(Exited(code)) =>
      0 <= code < 0x100 && c.closes == 1 && c.reply == held.reply + ExitFrame(code)
    case Settled(Signaled(_)) => c.closes == 1 && c.reply == held.reply
    case _ => false
  }

  /** Over any run: a connection the daemon receives from a booster whose invoker waits is held from then on until it
      is settled, and from then on nothing more is written to it and it is not closed again. */
  lemma {:induction false} ReceivedOnce(ws: seq<World>, es: seq<Event>, j: nat, k: nat)
    requires IsRun(ws, es) && j < k <= |es|
    requires es[j].ReadDatagram? && ws[j].queue[0].invoker != 0
    ensures var n := ws[j].queue[0].conn;
            && n < |ws[j].conns| && ws[j].conns[n].stage == Queued && n < |ws[k].conns|
            && KeptOrSettled(ws[j].conns[n], ws[k].conns[n])
            && (k < |es| ==> n < |ws[k + 1].conns|
                             && (ws[k].conns[n].stage.Settled? ==> ws[k + 1].conns[n].stage == ws[k].conns[n].stage))
    decreases k
  {
    hide Inv, Next, KeptOrSettled;
    var n := ws[j].queue[0].conn;
    RunsKeepInvariant(ws, es, j);
    QueuedFacts(ws[j]);
    if k == j + 1 {
      ReceivedIsHeld(ws[j], es[j]);
    } else {
      ReceivedOnce(ws, es, j, k - 1);
      RunsKeepInvariant(ws, es, k - 1);
      StaysKept(ws[k - 1], es[k - 1], n, ws[j].conns[n]);
    }
    if k < |es| {
      RunsKeepInvariant(ws, es, k);
      StaysKept(ws[k], es[k], n, ws[j].conns[n]);
    }
  }

  lemma QueuedFacts(w: World)
    requires Inv(w) && w.queue != []
    ensures w.queue[0].conn < |w.conns| && w.conns[w.queue[0].conn].stage == Queued
    ensures w.conns[w.queue[0].conn].closes == 0
  {
    QueueFacts(w);
  }

  lemma ReceivedIsHeld(w: World, e: Event)
    requires Inv(w) && Enabled(w, e) && e.ReadDatagram? && w.queue[0].invoker != 0
    ensures var n := w.queue[0].conn;
            n < |w.conns| && n < |Next(w, e).conns| && KeptOrSettled(w.conns[n], Next(w, e).conns[n])
  {
    hide Inv, Next;
    QueuedFacts(w);
    ReadChanges(w, e, w.queue[0].conn);
  }

  lemma StaysKept(w: World, e: Event, n: nat, held: Conn)
    requires Inv(w) && Enabled(w, e) && n < |w.conns| && KeptOrSettled(held, w.conns[n])
    ensures n < |Next(w, e).conns| && KeptOrSettled(held, Next(w, e).conns[n])
    ensures w.conns[n].stage.Settled? ==> Next(w, e).conns[n].stage == w.conns[n].stage
  {
    hide Inv, Next;
    EventChanges(w, e, n);
    assert held.reply + [] == held.reply;
  }

  /** In every state of every run: a held connection has one descriptor and one mapped child, and has not been
      closed; any other has been closed once if it was settled, and never if not; and the signals sent to
      invokers are those of the settled connections whose child was signaled, once each, in order. */
  lemma Conservation(ws: seq<World>, es: seq<Event>, k: nat, n: nat)
    requires IsRun(ws, es) && k <= |es| && n < |ws[k].conns|
    ensures var w, c := ws[k], ws[k].conns[n];
            && (c.stage == Held <==> exists f :: f in w.fds && w.fds[f] == n)
            && (c.stage == Held ==> exists p :: p in w.d.invokerFd && MappedTo(w, p, w.d.invokerFd[p], n))
            && c.closes == (if Listed(w.settled, n) then 1 else 0)
            && (c.stage.Settled? <==> Listed(w.settled, n))
            && (forall j, l :: 0 <= j < l < |w.settled| ==> w.settled[j].0 != w.settled[l].0)
            && w.kills == KillsOf(w.settled)
  {
    RunsKeepInvariant(ws, es, k);
    var w, c := ws[k], ws[k].conns[n];
    assert ConnOk(c);
    if Listed(w.settled, n) {
      var j :| 0 <= j < |w.settled| && w.settled[j].0 == n;
      assert SettledOk(w.conns, w.settled[j]);
    }
    if c.stage == Held {
      var f :| f in w.fds && w.fds[f] == n;
      var p :| p in w.d.invokerFd && w.d.invokerFd[p] == f;
      MappedFacts(w, p);
      assert MappedTo(w, p, w.d.invokerFd[p], n);
    }
  }

  // ---- the mode of the current booster ----

  /** In every state of every run the current booster was forked in the daemon's present mode, or has been sent
      SIGTERM; and whatever replaces it is forked in the mode of that moment. */
  lemma ModeSafety(ws: seq<World>, es: seq<Event>, k: nat)
    requires IsRun(ws, es) && k <= |es|
    ensures var w := ws[k];
            && w.d.boosterPid in w.procs
            && (w.procs[w.d.boosterPid].mode == w.d.bootMode || w.procs[w.d.boosterPid].termed)
    ensures k < |es| && ws[k + 1].births != ws[k].births ==>
              var w := ws[k + 1];
              && w.d.boosterPid in w.procs
              && w.procs[w.d.boosterPid] == Proc(ws[k].births, w.d.bootMode, false, Waiting, None)
  {
    hide InvHeld, InvSettled, InvConns, InvQueue, InvProcs, InvDaemon;
    RunsKeepInvariant(ws, es, k);
    if k < |es| && Next(ws[k], es[k]).births != ws[k].births {
      BirthReplaces(ws[k], es[k]);
    }
  }

  /** What a signal taken from the pipe does, and all that it does. */
  lemma SignalEffects(w: World)
    requires Inv(w) && Enabled(w, TakeSignal)
    ensures var sig, b := w.pipe[0], w.d.boosterPid;
            var boot := if sig == USR1 then false else if sig == USR2 then true else w.d.bootMode;
            && b in w.procs
            && Next(w, TakeSignal) ==
               w.(pipe := w.pipe[1..],
                  pc := if sig == CHLD then Reaping(0) else if sig == TERM then Stopped else Idle,
                  d := w.d.(bootMode := boot),
                  procs := if boot != w.d.bootMode then w.procs[b := w.procs[b].(termed := true)] else w.procs)
  {
    hide InvHeld, InvSettled, InvConns, InvQueue, InvProcs, Consistent, Terminate, ModeEffects;
    match w.pipe[0]
    case USR1 => SwitchTerminates(w.procs, w.d, false);
    case USR2 => SwitchTerminates(w.procs, w.d, true);
    case _ =>
  }

  /** The event takes a signal that asks for a mode. */
  predicate AsksForMode(w: World, e: Event) {
    e.TakeSignal? && w.pipe != [] && (w.pipe[0] == USR1 || w.pipe[0] == USR2)
  }

  /** No other event changes the mode, and none but a change of mode tells a process to end. */
  lemma OnlySignalsSwitch(w: World, e: Event)
    requires Inv(w) && Enabled(w, e)
    ensures !AsksForMode(w, e) ==> Next(w, e).d.bootMode == w.d.bootMode
    ensures forall p :: p in w.procs && p in Next(w, e).procs && Next(w, e).procs[p].born == w.procs[p].born ==>
              Next(w, e).procs[p].termed ==
              (w.procs[p].termed || (Next(w, e).d.bootMode != w.d.bootMode && p == w.d.boosterPid))
  {
    hide Inv, AfterReadDatagram, AfterTakeSignal, AfterPoll;
    match e
    case ReadDatagram(newPid, fd) => DatagramTables(w, newPid, fd);
    case TakeSignal => SignalEffects(w);
    case Poll(newPid) => PollTables(w, newPid);
    case _ =>
  }

  /** What one poll of a child does to the daemon's place, its mode and the processes. */
  lemma PollTables(w: World, newPid: int)
    requires Inv(w) && Enabled(w, Poll(newPid))
    ensures var w', i := AfterPoll(w, newPid), w.pc.i;
            && w'.d.bootMode == w.d.bootMode && w'.pipe == w.pipe && w'.queue == w.queue
            && (!DeadAt(w, i) ==> w' == w.(pc := Reaping(i + 1)))
            && (DeadAt(w, i) ==>
                  var pid := w.d.children[i];
                  var rest := w.d.children[..i] + w.d.children[i + 1..];
                  && w'.pc == Reaping(i)
                  && w'.d.children == (if pid == w.d.boosterPid then rest + [newPid] else rest)
                  && w'.d.boosterPid == (if pid == w.d.boosterPid then newPid else w.d.boosterPid)
                  && w'.procs == if pid == w.d.boosterPid
                                 then (w.procs - {pid})[newPid := Proc(w.births, w.d.bootMode, false, Waiting, None)]
                                 else w.procs - {pid})
    ensures var procs := AfterPoll(w, newPid).procs;
            forall p :: p in w.procs && p in procs && procs[p].born == w.procs[p].born ==> procs[p] == w.procs[p]
  {
    hide InvHeld, InvSettled, InvConns, InvQueue, InvMode, InvDaemon, FarewellEffects, Settle, AfterEffects;
    if DeadAt(w, w.pc.i) {
      var pid := w.d.children[w.pc.i];
      var status := w.procs[pid].phase.status;
      EffectsLeaveDaemon(Settle(w, pid, status), FarewellEffects(w.d, pid, status));
      SettleLeavesDaemon(w, pid, status);
      hide ProcOk;
    }
  }

  /** The daemon's round: select reports what there is; a datagram is read before a signal is taken, and a signal in
      the same round only if select has reported one; children are polled one after the other, the next one taking
      the place of one that was buried. */
  lemma DaemonRound(w: World, e: Event)
    requires Inv(w) && Enabled(w, e)
    ensures e.Select? ==> Next(w, e) == w.(pc := Picked(w.queue != [], w.pipe != []))
    ensures e.ReadDatagram? ==> && Next(w, e).queue == w.queue[1..] && Next(w, e).pipe == w.pipe
                                && Next(w, e).pc == if w.pc.sig then Picked(false, true) else Idle
    ensures e.EndReap? ==> Next(w, e) == w.(pc := Idle)
    ensures e.Deliver? ==> Next(w, e) == w.(pipe := w.pipe + [e.signal])
    ensures e.Accept? || e.SendWord? || e.Lose? || e.FinishLosing? || e.Launch? || e.Die? ==>
              Next(w, e).pc == w.pc && Next(w, e).pipe == w.pipe && Next(w, e).d == w.d
  {
    hide Inv;
  }

  /** Over any run: between two states with no SIGUSR1 or SIGUSR2 taken the mode stays, and after one has been taken
      it is boot mode exactly if that was SIGUSR2. */
  lemma {:induction false} ModeIsLastAskedFor(ws: seq<World>, es: seq<Event>, j: nat, k: nat)
    requires IsRun(ws, es) && j <= k <= |es|
    requires forall i :: j <= i < k ==> !AsksForMode(ws[i], es[i])
    ensures ws[k].d.bootMode == ws[j].d.bootMode
    ensures j > 0 && AsksForMode(ws[j - 1], es[j - 1]) ==> (ws[k].d.bootMode <==> ws[j - 1].pipe[0] == USR2)
    decreases k
  {
    hide Inv, Next, Enabled;
    if k > j {
      ModeIsLastAskedFor(ws, es, j, k - 1);
      RunsKeepInvariant(ws, es, k - 1);
      OnlySignalsSwitch(ws[k - 1], es[k - 1]);
    } else if j > 0 && AsksForMode(ws[j - 1], es[j - 1]) {
      RunsKeepInvariant(ws, es, j - 1);
      SignalEffects(ws[j - 1]);
    }
  }

  /** A new connection is what its invoker asked for, with the pid of the booster that accepted it. */
  lemma AcceptedConnection(w: World, p: int, invoker: int, wait: bool)
    requires Enabled(w, Accept(p, invoker, wait))
    ensures var w' := Next(w, Accept(p, invoker, wait));
            && |w'.conns| == |w.conns| + 1 && w'.conns[..|w.conns|] == w.conns
            && w'.conns[|w.conns|].invoker == invoker && w'.conns[|w.conns|].wait == wait
            && w'.conns[|w.conns|].pid == p && w'.conns[|w.conns|].reply == []
            && w'.procs[p].phase == Serving(|w.conns|)
  {
  }

  /** A launched application's datagram names its invoker exactly if it waits. */
  lemma LaunchTells(w: World, p: int)
    requires Inv(w) && Enabled(w, Launch(p))
    ensures var n, w' := w.procs[p].phase.conn, Next(w, Launch(p));
            && n < |w.conns| && w'.procs[p].phase == Running(n) && w'.procs[p].app == Some(n)
            && w'.queue == w.queue + [Datagram(if w.conns[n].wait then w.conns[n].invoker else 0, n, w.procs[p].born)]
            && |w.conns[n].reply| == if w.conns[n].wait then 3 else 1
  {
    ServerFacts(w, p);
  }

  /** The signal that killed an application goes to the invoker of its connection, and nothing else is sent. */
  lemma SignalPassedOn(w: World, e: Event)
    requires Inv(w) && Enabled(w, e)
    ensures Next(w, e).kills == w.kills
            || (exists n: nat, status :: && e.Poll? && n < |w.conns| && n < |Next(w, e).conns|
                                         && w.conns[n].stage == Held
                                         && Next(w, e).conns[n].stage == Settled(status) && status.Signaled?
                                         && Next(w, e).kills == w.kills + [(w.conns[n].invoker, status.sig)])
  {
    hide Inv, AfterReadDatagram, AfterTakeSignal, AfterPoll;
    match e
    case ReadDatagram(newPid, fd) => ReadDatagramStep(w, newPid, fd);
    case TakeSignal => SignalEffects(w);
    case Poll(newPid) => PollKills(w, newPid);
    case _ =>
  }

  lemma PollKills(w: World, newPid: int)
    requires Inv(w) && Enabled(w, Poll(newPid))
    ensures AfterPoll(w, newPid).kills == w.kills
            || (exists n: nat, status :: && n < |w.conns| && n < |AfterPoll(w, newPid).conns|
                                         && w.conns[n].stage == Held
                                         && AfterPoll(w, newPid).conns[n].stage == Settled(status) && status.Signaled?
                                         && AfterPoll(w, newPid).kills == w.kills + [(w.conns[n].invoker, status.sig)])
  {
    hide InvHeld, InvSettled, InvConns, InvQueue, InvProcs, InvMode, InvDaemon, FarewellEffects, Settle, AfterEffects,
      AfterDeath;
    if DeadAt(w, w.pc.i) {
      var pid := w.d.children[w.pc.i];
      var status := w.procs[pid].phase.status;
      ExitCodeFits(w, pid);
      if pid in w.d.invokerFd {
        MappedFacts(w, pid);
        var n := w.fds[w.d.invokerFd[pid]];
        FarewellMapped(w, pid, status, w.d.invokerFd[pid], n);
        assert AfterPoll(w, newPid).conns[n].stage == Settled(status);
        if status.Exited? {
          assert w.kills + [] == w.kills;
        }
      } else {
        DeathMaps(w, newPid);
        FarewellUnmapped(w, pid, status);
      }
    }
  }

  lemma BirthReplaces(w: World, e: Event)
    requires Inv(w) && Enabled(w, e) && Next(w, e).births != w.births
    ensures var w' := Next(w, e);
            && w'.d.boosterPid in w'.procs
            && w'.procs[w'.d.boosterPid] == Proc(w.births, w'.d.bootMode, false, Waiting, None)
  {
    hide Inv, AfterReadDatagram, AfterPoll;
    match e
    case ReadDatagram(newPid, fd) => DatagramTables(w, newPid, fd);
    case Poll(newPid) => PollBirth(w, newPid);
    case _ =>
  }

  lemma PollBirth(w: World, newPid: int)
    requires Inv(w) && Enabled(w, Poll(newPid)) && AfterPoll(w, newPid).births != w.births
    ensures var w' := AfterPoll(w, newPid);
            && w'.d.boosterPid in w'.procs
            && w'.procs[w'.d.boosterPid] == Proc(w.births, w'.d.bootMode, false, Waiting, None)
  {
    hide InvHeld, InvSettled, InvConns, InvQueue, InvProcs, InvMode, InvDaemon, FarewellEffects, Settle, AfterEffects,
      AfterDeath;
    if DeadAt(w, w.pc.i) {
      var pid := w.d.children[w.pc.i];
      DeathMaps(w, newPid);
      var status := w.procs[pid].phase.status;
      EffectsLeaveDaemon(Settle(w, pid, status), FarewellEffects(w.d, pid, status));
      SettleLeavesDaemon(w, pid, status);
    }
  }
}
