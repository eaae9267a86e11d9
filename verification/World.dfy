/** The daemon, its boosters and their invokers as one transition system.
    Every atomic action of one process is an event; all interleavings are runs. */
module World {
  import opened Protocol
  import opened DaemonState

  /** What a child of the daemon is doing. */
  datatype Phase = Waiting | Serving(conn: nat) | Running(conn: nat) | Dead(status: Status)

  /** A child that has not been waited for.  `born` tells processes apart that had the same pid; `mode` is the
      daemon's mode when it was forked; `app` is the connection whose application it became. */
  datatype Proc = Proc(born: nat, mode: bool, termed: bool, phase: Phase, app: Option<nat>)

  /** Where a connection stands. */
  datatype Stage =
    | Greeting                    // the booster acknowledges
    | Answering(code: word)       // the booster reports that the application is running already
    | Queued                      // a datagram about it is in the daemon's socket
    | Held                        // the daemon holds it
    | Settled(status: Status)     // the daemon has let go of it, for a child that ended this way
    | Over                        // nobody will write to it any more

  /** A connection from an invoker: what it asked, the words written to it, how often the daemon has closed it,
      and how the application launched for it ended. */
  datatype Conn = Conn(invoker: int, wait: bool, pid: word, reply: seq<word>, closes: nat, stage: Stage,
                       appStatus: Option<Status>)

  datatype Datagram = Datagram(invoker: int, conn: nat, sender: nat)

  datatype Signal = CHLD | USR1 | USR2 | TERM | OTHER

  /** The daemon's place in `run`: before select, between select and the handlers, in reapZombies. */
  datatype Pc = Idle | Picked(sock: bool, sig: bool) | Reaping(i: nat) | Stopped

  datatype World = World(d: State, procs: map<int, Proc>, conns: seq<Conn>, fds: map<int, nat>,
                         queue: seq<Datagram>, pipe: seq<Signal>, pc: Pc, births: nat,
                         kills: seq<(int, int)>, settled: seq<(nat, int, Status)>)

  datatype Event =
    | Accept(p: int, invoker: int, wait: bool)
    | SendWord(p: int)
    | Lose(p: int, code: word)                 // the application runs already
    | FinishLosing(p: int)
    | Launch(p: int)
    | Die(p: int, status: Status)
    | Deliver(signal: Signal)
    | Select
    | ReadDatagram(newPid: int, fd: int)
    | TakeSignal
    | Poll(newPid: int)
    | EndReap

  // ---- words of the reply ----

  function Greetings(c: Conn): seq<word> {
    if c.wait then [MSG_ACK, MSG_PID, c.pid] else [MSG_ACK]
  }

  function ExitFrame(code: word): seq<word> { [MSG_EXIT, code] }

  /** What the server has still to write. */
  function Script(c: Conn): seq<word> {
    if c.stage.Answering? then Greetings(c) + ExitFrame(c.stage.code) else Greetings(c)
  }

  // ---- the events ----

  function Init(boot: bool, pid: int): World {
    World(State([pid], pid, boot, map[], map[]), map[pid := Proc(0, boot, false, Waiting, None)],
          [], map[], [], [], Idle, 1, [], [])
  }

  predicate Fresh(w: World, newPid: int) { newPid > 0 && newPid < 0x1_0000_0000 && newPid !in w.procs }

  predicate IsServing(w: World, p: int) {
    p in w.procs && w.procs[p].phase.Serving? && w.procs[p].phase.conn < |w.conns|
  }

  function Served(w: World, p: int): Conn
    requires IsServing(w, p)
  {
    w.conns[w.procs[p].phase.conn]
  }

  predicate ScriptDone(c: Conn) { |c.reply| >= |Script(c)| }

  predicate DeadAt(w: World, i: nat) {
    i < |w.d.children| && w.d.children[i] in w.procs && w.procs[w.d.children[i]].phase.Dead?
  }

  predicate Enabled(w: World, e: Event) {
    match e
    case Accept(p, invoker, wait) =>
      p in w.procs && w.procs[p].phase == Waiting && 0 < p < 0x1_0000_0000 && invoker > 0
    case SendWord(p) => IsServing(w, p) && !ScriptDone(Served(w, p))
    case Lose(p, code) => IsServing(w, p) && Served(w, p).stage == Greeting && ScriptDone(Served(w, p))
    case FinishLosing(p) => IsServing(w, p) && Served(w, p).stage.Answering? && ScriptDone(Served(w, p))
    case Launch(p) => IsServing(w, p) && Served(w, p).stage == Greeting && ScriptDone(Served(w, p))
    case Die(p, status) => p in w.procs && !w.procs[p].phase.Dead? && (status.Exited? ==> 0 <= status.code < 0x100)
    case Deliver(_) => true
    case Select => w.pc == Idle && (w.queue != [] || w.pipe != [])
    case ReadDatagram(newPid, fd) =>
      w.pc.Picked? && w.pc.sock && w.queue != [] && Fresh(w, newPid) && fd !in w.fds && w.queue[0].conn < |w.conns|
    case TakeSignal => w.pc == Picked(false, true) && w.pipe != []
    case Poll(newPid) =>
      w.pc.Reaping? && w.pc.i < |w.d.children| && w.d.children[w.pc.i] in w.procs &&
      (DeadAt(w, w.pc.i) ==>
         0 < newPid < 0x1_0000_0000 && (newPid in w.procs ==> newPid == w.d.children[w.pc.i]))
    case EndReap => w.pc.Reaping? && w.pc.i >= |w.d.children|
  }

  function SetConn(w: World, c: nat, conn: Conn): World
    requires c < |w.conns|
  {
    w.(conns := w.conns[c := conn])
  }

  function SetPhase(w: World, p: int, phase: Phase): World
    requires p in w.procs
  {
    w.(procs := w.procs[p := w.procs[p].(phase := phase)])
  }

  function AfterAccept(w: World, p: int, invoker: int, wait: bool): World
    requires Enabled(w, Accept(p, invoker, wait))
  {
    SetPhase(w, p, Serving(|w.conns|)).(conns := w.conns + [Conn(invoker, wait, p, [], 0, Greeting, None)])
  }

  function AfterSendWord(w: World, p: int): World
    requires Enabled(w, SendWord(p))
  {
    var c := Served(w, p);
    SetConn(w, w.procs[p].phase.conn, c.(reply := c.reply + [Script(c)[|c.reply|]]))
  }

  /** The application runs already: its invoker is told so if the connection is still open. */
  function AfterLose(w: World, p: int, code: word): World
    requires Enabled(w, Lose(p, code))
  {
    var c := Served(w, p);
    if c.wait then SetConn(w, w.procs[p].phase.conn, c.(stage := Answering(code)))
    else SetPhase(SetConn(w, w.procs[p].phase.conn, c.(stage := Over)), p, Waiting)
  }

  function AfterFinishLosing(w: World, p: int): World
    requires Enabled(w, FinishLosing(p))
  {
    SetPhase(SetConn(w, w.procs[p].phase.conn, Served(w, p).(stage := Over)), p, Waiting)
  }

  /** sendDataToParent: the invoker's pid and connection go with the datagram if it waits. */
  function AfterLaunch(w: World, p: int): World
    requires Enabled(w, Launch(p))
  {
    var n, c := w.procs[p].phase.conn, Served(w, p);
    SetConn(w, n, c.(stage := Queued))
      .(procs := w.procs[p := w.procs[p].(phase := Running(n), app := Some(n))],
        queue := w.queue + [Datagram(if c.wait then c.invoker else 0, n, w.procs[p].born)])
  }

  function AfterDie(w: World, p: int, status: Status): World
    requires Enabled(w, Die(p, status))
  {
    var phase := w.procs[p].phase;
    var w1 := SetPhase(w, p, Dead(status));
    if phase.Serving? && phase.conn < |w.conns| then
      SetConn(w1, phase.conn, w.conns[phase.conn].(stage := Over))
    else if phase.Running? && phase.conn < |w.conns| then
      SetConn(w1, phase.conn, w.conns[phase.conn].(appStatus := Some(status)))
    else w1
  }

  /** A new booster joins the processes. */
  function AfterBirth(w: World, newPid: int): World {
    w.(procs := w.procs[newPid := Proc(w.births, w.d.bootMode, false, Waiting, None)], births := w.births + 1)
  }

  function AfterReadDatagram(w: World, newPid: int, fd: int): World
    requires Enabled(w, ReadDatagram(newPid, fd))
  {
    var g := w.queue[0];
    var c := w.conns[g.conn];
    var w1 := w.(d := AfterDatagram(w.d, g.invoker, fd, newPid), queue := w.queue[1..],
                 pc := if w.pc.sig then Picked(false, true) else Idle);
    var w2 := if g.invoker != 0
              then SetConn(w1, g.conn, c.(stage := Held)).(fds := w.fds[fd := g.conn])
              else SetConn(w1, g.conn, c.(stage := Over));
    AfterBirth(w2, newPid)
  }

  function Terminate(procs: map<int, Proc>, effects: seq<Effect>): map<int, Proc>
    decreases |effects|
  {
    if effects == [] then procs
    else
      match effects[0]
      case Killed(pid, sig) =>
        Terminate(if pid in procs && sig == SIGTERM then procs[pid := procs[pid].(termed := true)] else procs,
                  effects[1..])
      case _ => Terminate(procs, effects[1..])
  }

  function AfterTakeSignal(w: World): World
    requires Enabled(w, TakeSignal)
  {
    var w1 := w.(pipe := w.pipe[1..], pc := Idle);
    match w.pipe[0]
    case CHLD => w1.(pc := Reaping(0))
    case USR1 => w1.(d := AfterMode(w.d, false), procs := Terminate(w.procs, ModeEffects(w.d, false)))
    case USR2 => w1.(d := AfterMode(w.d, true), procs := Terminate(w.procs, ModeEffects(w.d, true)))
    case TERM => w1.(pc := Stopped)
    case OTHER => w1
  }

  /** What one effect of the daemon does to the connections it holds, and to invokers. */
  function AfterEffect(w: World, e: Effect): World {
    match e
    case WroteExit(fd, code) =>
      if fd in w.fds && w.fds[fd] < |w.conns| && 0 <= code < 0x1_0000_0000 then
        var c := w.conns[w.fds[fd]];
        SetConn(w, w.fds[fd], c.(reply := c.reply + ExitFrame(code)))
      else w
    case Closed(fd) =>
      if fd in w.fds && w.fds[fd] < |w.conns| then
        var c := w.conns[w.fds[fd]];
        SetConn(w, w.fds[fd], c.(closes := c.closes + 1)).(fds := w.fds - {fd})
      else w
    case Killed(pid, sig) => w.(kills := w.kills + [(pid, sig)])
    case Forked(_, _, _) => w
  }

  function AfterEffects(w: World, es: seq<Effect>): World
    decreases |es|
  {
    if es == [] then w else AfterEffects(AfterEffect(w, es[0]), es[1..])
  }

  /** Bookkeeping: the connection mapped to a dead child is settled. */
  function Settle(w: World, pid: int, status: Status): World {
    if pid in w.d.invokerFd && w.d.invokerFd[pid] in w.fds && w.fds[w.d.invokerFd[pid]] < |w.conns| then
      var c := w.fds[w.d.invokerFd[pid]];
      SetConn(w, c, w.conns[c].(stage := Settled(status))).(settled := w.settled + [(c, w.conns[c].invoker, status)])
    else w
  }

  function AfterPoll(w: World, newPid: int): World
    requires Enabled(w, Poll(newPid))
  {
    var i := w.pc.i;
    var pid := w.d.children[i];
    if !DeadAt(w, i) then w.(pc := Reaping(i + 1))
    else
      var status := w.procs[pid].phase.status;
      var w1 := AfterEffects(Settle(w, pid, status), FarewellEffects(w.d, pid, status));
      var w2 := w1.(d := AfterDeath(w.d, i, newPid), procs := w.procs - {pid});
      if pid == w.d.boosterPid then AfterBirth(w2, newPid) else w2
  }

  function Next(w: World, e: Event): World
    requires Enabled(w, e)
  {
    match e
    case Accept(p, invoker, wait) => AfterAccept(w, p, invoker, wait)
    case SendWord(p) => AfterSendWord(w, p)
    case Lose(p, code) => AfterLose(w, p, code)
    case FinishLosing(p) => AfterFinishLosing(w, p)
    case Launch(p) => AfterLaunch(w, p)
    case Die(p, status) => AfterDie(w, p, status)
    case Deliver(signal) => w.(pipe := w.pipe + [signal])
    case Select => w.(pc := Picked(w.queue != [], w.pipe != []))
    case ReadDatagram(newPid, fd) => AfterReadDatagram(w, newPid, fd)
    case TakeSignal => AfterTakeSignal(w)
    case Poll(newPid) => AfterPoll(w, newPid)
    case EndReap => w.(pc := Idle)
  }

  /** A run: its states, from the start of the daemon on. */
  ghost predicate IsRun(ws: seq<World>, es: seq<Event>) {
    && |ws| == |es| + 1
    && (exists boot, pid :: 0 < pid < 0x1_0000_0000 && ws[0] == Init(boot, pid))
    && forall k :: 0 <= k < |es| ==> Enabled(ws[k], es[k]) && ws[k + 1] == Next(ws[k], es[k])
  }
}
