/** Runs that show what the system can do. */
module Witnesses {
  import opened Protocol
  import opened DaemonState
  import opened World
  import opened WorldInvariant
  import opened WorldTheorems
  import opened Attribution

  /** Booster 99 has told waiting invoker 7 that its application runs already. */
  const ANSWERED := World(State([99], 99, false, map[], map[]), map[99 := New(0)],
                          [Greeted(99, 7).(stage := Over, reply := WholeReply(99, 0))], map[], [], [], Idle, 1, [], [])

  /** It has written four of the five words. */
  const ANSWERING := ANSWERED.(procs := map[99 := New(0).(phase := Serving(0))],
                               conns := [Greeted(99, 7).(stage := Answering(0),
                                                         reply := [MSG_ACK, MSG_PID, 99, MSG_EXIT])])

  lemma ExitBegun()
    ensures Reachable(ANSWERING)
  {
    hide Reachable;
    ReachInit(false, 99);
    var w := ANSWERING.(conns := [Greeted(99, 7)]);
    Serve(Init(false, 99), 99, 7, w);
    var c := Greeted(99, 7).(stage := Answering(0));
    var w1 := ANSWERING.(conns := [c]);
    ReachNext(w, Lose(99, 0), w1);
    assert Script(c)[3] == MSG_EXIT && c.reply + [MSG_EXIT] == [MSG_ACK, MSG_PID, 99, MSG_EXIT];
    ServeWord(w1, 99, 0);
    assert Next(w1, SendWord(99)).conns == ANSWERING.conns;
  }

  /** An invoker can be told that its application runs already, with the whole reply; the booster then waits for the
      next, and the daemon has heard nothing. */
  lemma AlreadyRunningAnswered()
    ensures Reachable(ANSWERED)
  {
    hide Reachable;
    ExitBegun();
    var c := ANSWERING.conns[0];
    assert Script(c)[4] == 0 && c.reply + [0] == WholeReply(99, 0);
    ServeWord(ANSWERING, 99, 0);
    var w := Next(ANSWERING, SendWord(99));
    assert w.conns == [c.(reply := WholeReply(99, 0))];
    ReachNext(w, FinishLosing(99), ANSWERED);
  }

  /** The daemon was in boot mode; it has taken SIGUSR1, and booster 99 has been told to end. */
  const SWITCHED := World(State([99], 99, false, map[], map[]),
                          map[99 := Proc(0, true, true, Waiting, None)], [], map[], [], [], Idle, 1, [], [])

  /** Booster 99 has ended, and 100 has been forked in normal mode. */
  const REPLACED := World(State([100], 100, false, map[], map[]), map[100 := New(1)], [], map[], [], [], Reaping(0), 2,
                          [], [])

  lemma SwitchTaken()
    ensures Reachable(SWITCHED)
  {
    hide Reachable, Terminate, ModeEffects;
    ReachInit(true, 99);
    var w := Init(true, 99);
    var w1 := w.(pipe := [USR1]);
    ReachNext(w, Deliver(USR1), w1);
    var w2 := w1.(pc := Picked(false, true));
    ReachNext(w1, Select, w2);
    SwitchTerminates(w2.procs, w2.d, false);
    ReachNext(w2, TakeSignal, SWITCHED);
  }

  /** SIGUSR1 in boot mode has the current booster end, and be replaced by one in normal mode. */
  lemma ModeSwitchCarriedOut()
    ensures Reachable(SWITCHED) && Reachable(REPLACED)
  {
    hide Reachable, FarewellEffects, Settle, AfterEffects;
    SwitchTaken();
    var w3 := SWITCHED.(procs := map[99 := Proc(0, true, true, Dead(Signaled(SIGTERM)), None)]);
    ReachNext(SWITCHED, Die(99, Signaled(SIGTERM)), w3);
    var w4 := w3.(pipe := [CHLD]);
    ReachNext(w3, Deliver(CHLD), w4);
    var w5 := w4.(pc := Picked(false, true));
    ReachNext(w4, Select, w5);
    var w6 := w5.(pipe := [], pc := Reaping(0));
    ReachNext(w5, TakeSignal, w6);
    FarewellUnmapped(w6, 99, Signaled(SIGTERM));
    assert (w6.procs - {99})[100 := New(1)] == REPLACED.procs;
    ReachNext(w6, Poll(100), REPLACED);
  }
}
