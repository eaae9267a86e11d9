/** The daemon's bookkeeping of its children: src/launcherlib/daemon.cpp. */
module DaemonState {

  /** How a child ended: WIFEXITED with WEXITSTATUS, or WIFSIGNALED with WTERMSIG. */
  datatype Status = Exited(code: int) | Signaled(sig: int)

  /** What the daemon does to the rest of the system. */
  datatype Effect =
    | WroteExit(fd: int, code: int)                     // INVOKER_MSG_EXIT and the status
    | Closed(fd: int)
    | Killed(pid: int, sig: int)
    | Forked(pid: int, bootMode: bool, pause: int)

  const SIGTERM := 15
  const BOOSTER_SLEEP_TIME := 2

  datatype State = State(children: seq<int>, boosterPid: int, bootMode: bool,
                         invokerPid: map<int, int>, invokerFd: map<int, int>)

  // ---- the invariant between two events ----

  ghost predicate Distinct(s: seq<int>) { forall j, k :: 0 <= j < k < |s| ==> s[j] != s[k] }

  ghost predicate Injective(m: map<int, int>) { forall p, q :: p in m && q in m && m[p] == m[q] ==> p == q }

  ghost predicate Consistent(s: State) {
    && Distinct(s.children)
    && (forall c :: c in s.children ==> c > 0)
    && s.boosterPid in s.children
    && s.invokerPid.Keys == s.invokerFd.Keys
    && (forall p :: p in s.invokerPid ==> p in s.children && p != s.boosterPid)
    && Injective(s.invokerFd)
  }

  // ---- the steps ----

  /** forkBooster in the parent, `newPid` being what fork returns. */
  function AfterFork(s: State, newPid: int): State {
    s.(children := s.children + [newPid], boosterPid := newPid)
  }

  function ForkEffect(s: State, newPid: int, sleepTime: int): Effect {
    Forked(newPid, s.bootMode, if s.bootMode then 0 else sleepTime)
  }

  /** A datagram with a nonzero invoker pid is put down to the current booster, whoever sent it. */
  function AfterDatagram(s: State, invoker: int, fd: int, newPid: int): State {
    var s1 := if invoker != 0 && s.boosterPid != 0
              then s.(invokerPid := s.invokerPid[s.boosterPid := invoker], invokerFd := s.invokerFd[s.boosterPid := fd])
              else s;
    AfterFork(s1, newPid)
  }

  function Without(m: map<int, int>, p: int): map<int, int> { m - {p} }

  /** The child at index i is found dead. */
  function AfterDeath(s: State, i: nat, newPid: int): State
    requires i < |s.children|
  {
    var pid := s.children[i];
    var s1 := s.(children := s.children[..i] + s.children[i + 1..]);
    var s2 := if pid in s.invokerPid
              then s1.(invokerPid := Without(s.invokerPid, pid), invokerFd := Without(s.invokerFd, pid))
              else s1;
    if pid == s.boosterPid then AfterFork(s2, newPid) else s2
  }

  /** What a dead child's invoker gets: an exit frame, or the signal that killed the child. */
  function FarewellEffects(s: State, pid: int, status: Status): seq<Effect> {
    if pid !in s.invokerPid then []
    else
      match status
      case Exited(code) =>
        if pid in s.invokerFd then [WroteExit(s.invokerFd[pid], code), Closed(s.invokerFd[pid])] else []
      case Signaled(sig) =>
        (if pid in s.invokerFd then [Closed(s.invokerFd[pid])] else []) +
        (if s.invokerPid[pid] > 0 then [Killed(s.invokerPid[pid], sig)] else [])
  }

  function DeathEffects(s: State, pid: int, status: Status, newPid: int): seq<Effect> {
    FarewellEffects(s, pid, status) +
    if pid == s.boosterPid then [ForkEffect(s, newPid, BOOSTER_SLEEP_TIME)] else []
  }

  function AfterMode(s: State, boot: bool): State { s.(bootMode := boot) }

  function ModeEffects(s: State, boot: bool): seq<Effect> {
    if s.bootMode != boot && s.boosterPid > 0 then [Killed(s.boosterPid, SIGTERM)] else []
  }

  // ---- every step keeps the invariant ----

  lemma DatagramKeepsConsistent(s: State, invoker: int, fd: int, newPid: int)
    requires Consistent(s) && newPid > 0 && newPid !in s.children && fd !in s.invokerFd.Values
    ensures Consistent(AfterDatagram(s, invoker, fd, newPid))
  {
    var t := AfterDatagram(s, invoker, fd, newPid);
    forall p, q | p in t.invokerFd && q in t.invokerFd && t.invokerFd[p] == t.invokerFd[q] ensures p == q {
      assert p in s.invokerFd ==> s.invokerFd[p] in s.invokerFd.Values;
      assert q in s.invokerFd ==> s.invokerFd[q] in s.invokerFd.Values;
    }
  }

  lemma RemoveAt(s: seq<int>, i: nat)
    requires i < |s| && Distinct(s)
    ensures Distinct(s[..i] + s[i + 1..])
    ensures forall p :: p in s[..i] + s[i + 1..] <==> p in s && p != s[i]
  {
    var t := s[..i] + s[i + 1..];
    forall p | p in s && p != s[i] ensures p in t {
      var k :| 0 <= k < |s| && s[k] == p;
      assert t[if k < i then k else k - 1] == p;
    }
  }

  lemma DeathKeepsConsistent(s: State, i: nat, newPid: int)
    requires Consistent(s) && i < |s.children|
    requires s.children[i] == s.boosterPid ==> newPid > 0 && newPid !in s.children[..i] + s.children[i + 1..]
    ensures Consistent(AfterDeath(s, i, newPid))
  {
    RemoveAt(s.children, i);
    var t := AfterDeath(s, i, newPid);
    var rest := s.children[..i] + s.children[i + 1..];
    assert t.children == if s.children[i] == s.boosterPid then rest + [newPid] else rest;
    forall c | c in rest ensures c in s.children && c > 0 {
      assert c in s.children[..i] + s.children[i + 1..];
    }
  }

  // ---- reapZombies as a whole ----

  /** The children that are not dead, in their order. */
  function Survivors(children: seq<int>, dead: set<int>): seq<int> {
    if children == [] then []
    else
      var n := |children| - 1;
      Survivors(children[..n], dead) + if children[n] in dead then [] else [children[n]]
  }

  function ReapEffects(s: State, polled: seq<int>, zombies: map<int, Status>, newPid: int): seq<Effect> {
    if polled == [] then []
    else
      var n := |polled| - 1;
      ReapEffects(s, polled[..n], zombies, newPid) +
      if polled[n] in zombies then DeathEffects(s, polled[n], zombies[polled[n]], newPid) else []
  }

  /** The survivors keep their order, every dead child leaves both maps, and a new booster is appended
      exactly when the current one is among the dead. */
  function AfterReap(s: State, dead: set<int>, newPid: int): State {
    var reforked := s.boosterPid in dead;
    State(Survivors(s.children, dead) + if reforked then [newPid] else [],
          if reforked then newPid else s.boosterPid,
          s.bootMode, s.invokerPid - dead, s.invokerFd - dead)
  }

  /** fork does not return an unreaped child: when the daemon re-forks in the middle of reapZombies, only the
      dead children up to the booster have been reaped, and their pids alone may come back. */
  predicate FreshForReap(s: State, zombies: map<int, Status>, newPid: int) {
    && newPid > 0
    && (newPid in s.children || newPid !in zombies)
    && forall k :: 0 <= k < |s.children| && s.children[k] == newPid ==>
         newPid in zombies && s.boosterPid in s.children[k..]
  }

  // ---- the loop of reapZombies, after its first j children ----

  function Gone(polled: seq<int>, dead: set<int>): set<int> { set c | c in polled && c in dead }

  function AfterPolling(s: State, j: nat, dead: set<int>, newPid: int): State
    requires j <= |s.children|
  {
    var gone := Gone(s.children[..j], dead);
    var reforked := s.boosterPid in gone;
    State(Survivors(s.children[..j], dead) + s.children[j..] + if reforked then [newPid] else [],
          if reforked then newPid else s.boosterPid,
          s.bootMode, s.invokerPid - gone, s.invokerFd - gone)
  }

  lemma {:induction false} SurvivorsAreAlive(cs: seq<int>, dead: set<int>)
    ensures forall c :: c in Survivors(cs, dead) <==> c in cs && c !in dead
  {
    if cs != [] {
      var n := |cs| - 1;
      SurvivorsAreAlive(cs[..n], dead);
      assert cs == cs[..n] + [cs[n]];
    }
  }

  lemma PolledOnce(s: State, j: nat, zombies: map<int, Status>, newPid: int)
    requires Consistent(s) && j < |s.children| && FreshForReap(s, zombies, newPid)
    ensures var c, polled := s.children[j], s.children[..j];
            && c !in polled
            && (s.boosterPid in polled ==> c != s.boosterPid && c != newPid)
            && (c == s.boosterPid ==> newPid !in Survivors(polled, zombies.Keys) + s.children[j + 1..])
            && (c in s.invokerPid <==> c in s.invokerFd)
  {
    var c, polled := s.children[j], s.children[..j];
    SurvivorsAreAlive(polled, zombies.Keys);
    if c == newPid {
      var b :| j <= b < |s.children| && s.children[b] == s.boosterPid;
    }
    if newPid in s.children[j + 1..] {
      var k :| j + 1 <= k < |s.children| && s.children[k] == newPid;
      var b :| k <= b < |s.children| && s.children[b] == s.boosterPid;
    }
  }

  lemma DistinctChildren(s: State)
    requires Consistent(s)
    ensures Distinct(s.children)
  {
  }

  /** What the buried child's invoker gets, in full, and the booster that replaces it. */
  lemma FarewellIs(s: State, pid: int, status: Status, newPid: int)
    requires Consistent(s)
    ensures pid !in s.invokerPid ==> FarewellEffects(s, pid, status) == []
    ensures pid in s.invokerPid && status.Exited? ==>
              pid in s.invokerFd
              && FarewellEffects(s, pid, status) == [WroteExit(s.invokerFd[pid], status.code), Closed(s.invokerFd[pid])]
    ensures pid in s.invokerPid && status.Signaled? && s.invokerPid[pid] > 0 ==>
              pid in s.invokerFd
              && FarewellEffects(s, pid, status) == [Closed(s.invokerFd[pid]), Killed(s.invokerPid[pid], status.sig)]
    ensures DeathEffects(s, pid, status, newPid) ==
            FarewellEffects(s, pid, status) +
            if pid == s.boosterPid then [Forked(newPid, s.bootMode, if s.bootMode then 0 else 2)] else []
  {
  }

  lemma FarewellDependsOnEntry(s: State, t: State, pid: int, status: Status)
    requires pid in s.invokerPid <==> pid in t.invokerPid
    requires pid in s.invokerFd <==> pid in t.invokerFd
    requires pid in s.invokerPid ==> s.invokerPid[pid] == t.invokerPid[pid]
    requires pid in s.invokerFd ==> s.invokerFd[pid] == t.invokerFd[pid]
    ensures FarewellEffects(s, pid, status) == FarewellEffects(t, pid, status)
  {
  }

  /** One more child polled and found alive: it stays at its place. */
  lemma PollAlive(s: State, j: nat, zombies: map<int, Status>, newPid: int)
    requires Consistent(s) && j < |s.children| && s.children[j] !in zombies
    ensures var t, i := AfterPolling(s, j, zombies.Keys, newPid), |Survivors(s.children[..j], zombies.Keys)|;
            && i < |t.children| && t.children[i] == s.children[j]
            && t == AfterPolling(s, j + 1, zombies.Keys, newPid)
            && |Survivors(s.children[..j + 1], zombies.Keys)| == i + 1
  {
    hide Consistent, Gone, Survivors, Distinct;
    DistinctChildren(s);
    PollNext(s, j, zombies.Keys);
    var alive := Survivors(s.children[..j], zombies.Keys);
    assert AfterPolling(s, j, zombies.Keys, newPid).children[|alive|] == s.children[j];
  }

  lemma Excise(a: seq<int>, c: int, b: seq<int>)
    ensures (a + [c] + b)[|a|] == c
    ensures (a + [c] + b)[..|a|] + (a + [c] + b)[|a| + 1..] == a + b
  {
    assert (a + [c] + b)[..|a|] == a && (a + [c] + b)[|a| + 1..] == b;
  }

  /** Where the next child is, and what is left without it. */
  lemma PolledChildren(s: State, j: nat, dead: set<int>, newPid: int)
    requires Distinct(s.children) && j < |s.children| && s.children[j] in dead
    ensures var t, c := AfterPolling(s, j, dead, newPid), s.children[j];
            var alive := Survivors(s.children[..j], dead);
            && |alive| < |t.children| && t.children[|alive|] == c
            && t.children[..|alive|] + t.children[|alive| + 1..] ==
               alive + s.children[j + 1..] + (if s.boosterPid in Gone(s.children[..j], dead) then [newPid] else [])
  {
    hide Gone, Survivors, Distinct;
    PollNext(s, j, dead);
    var alive, c, rest := Survivors(s.children[..j], dead), s.children[j], s.children[j + 1..];
    var tail := if s.boosterPid in Gone(s.children[..j], dead) then [newPid] else [];
    Excise(alive, c, rest + tail);
    assert alive + ([c] + rest) + tail == alive + [c] + (rest + tail);
    assert alive + (rest + tail) == alive + rest + tail;
  }

  /** One more child polled and found dead: the body of the loop buries it. */
  lemma PollDead(s: State, j: nat, zombies: map<int, Status>, newPid: int)
    requires Consistent(s) && j < |s.children| && s.children[j] in zombies && FreshForReap(s, zombies, newPid)
    ensures var dead, t, c := zombies.Keys, AfterPolling(s, j, zombies.Keys, newPid), s.children[j];
            var i := |Survivors(s.children[..j], dead)|;
            && i < |t.children| && t.children[i] == c
            && AfterDeath(t, i, newPid) == AfterPolling(s, j + 1, dead, newPid)
            && |Survivors(s.children[..j + 1], dead)| == i
            && (c == t.boosterPid ==> newPid !in t.children[..i] + t.children[i + 1..])
  {
    hide Consistent, Gone, Survivors, FreshForReap, Distinct;
    var dead, c := zombies.Keys, s.children[j];
    DistinctChildren(s);
    PollNext(s, j, dead);
    PolledOnce(s, j, zombies, newPid);
    PolledChildren(s, j, dead, newPid);
    var t, alive := AfterPolling(s, j, dead, newPid), Survivors(s.children[..j], dead);
    var buried := AfterDeath(t, |alive|, newPid);
    assert alive + [] == alive;
    var next := AfterPolling(s, j + 1, dead, newPid);
    if c == s.boosterPid {
      assert alive + s.children[j + 1..] + [] == alive + s.children[j + 1..];
      assert buried.children == next.children;
    } else {
      assert buried.children == next.children;
    }
    if c !in t.invokerPid {
      assert t.invokerPid - {c} == t.invokerPid && t.invokerFd - {c} == t.invokerFd;
    }
  }

  /** What a dead child's invoker gets does not depend on the children polled before it. */
  lemma PollDeadEffects(s: State, j: nat, zombies: map<int, Status>, newPid: int)
    requires Consistent(s) && j < |s.children| && s.children[j] in zombies && FreshForReap(s, zombies, newPid)
    ensures var t, c := AfterPolling(s, j, zombies.Keys, newPid), s.children[j];
            DeathEffects(t, c, zombies[c], newPid) == DeathEffects(s, c, zombies[c], newPid)
  {
    var c := s.children[j];
    PollNext(s, j, zombies.Keys);
    PolledOnce(s, j, zombies, newPid);
    hide Consistent, FarewellEffects, Gone, Survivors, FreshForReap;
    FarewellDependsOnEntry(AfterPolling(s, j, zombies.Keys, newPid), s, c, zombies[c]);
  }

  lemma PolledAll(s: State, zombies: map<int, Status>, newPid: int)
    requires forall z :: z in zombies ==> z in s.children
    ensures AfterPolling(s, |s.children|, zombies.Keys, newPid) == AfterReap(s, zombies.Keys, newPid)
  {
    assert s.children[..|s.children|] == s.children;
    assert forall z :: z in zombies.Keys ==> z in s.children;
    var alive := Survivors(s.children, zombies.Keys);
    assert alive + [] == alive;
  }

  /** After the last child only the new booster can be left to poll, and it is alive. */
  lemma PolledNew(s: State, zombies: map<int, Status>, newPid: int, i: nat)
    requires FreshForReap(s, zombies, newPid)
    requires |Survivors(s.children, zombies.Keys)| <= i
    requires i < |AfterPolling(s, |s.children|, zombies.Keys, newPid).children|
    ensures var t := AfterPolling(s, |s.children|, zombies.Keys, newPid);
            i == |Survivors(s.children, zombies.Keys)| && |t.children| == i + 1 && t.children[i] == newPid
    ensures newPid > 0 && (newPid in s.children || newPid !in zombies)
  {
    assert s.children[..|s.children|] == s.children;
  }

  lemma PolledChild(s: State, j: nat)
    requires Consistent(s) && j < |s.children|
    ensures s.children[j] > 0 && s.children[j] !in s.children[..j]
    ensures forall c :: c in s.children[..j + 1] <==> c in s.children[..j] || c == s.children[j]
  {
    assert s.children[j] in s.children;
    assert s.children[..j + 1] == s.children[..j] + [s.children[j]];
  }

  lemma StillToPoll(s: State, j: nat, dead: set<int>, newPid: int)
    requires j < |s.children|
    ensures |Survivors(s.children[..j], dead)| < |AfterPolling(s, j, dead, newPid).children|
  {
  }

  lemma PolledNone(s: State, dead: set<int>, newPid: int)
    ensures AfterPolling(s, 0, dead, newPid) == s
  {
    assert s.invokerPid - {} == s.invokerPid && s.invokerFd - {} == s.invokerFd;
  }

  /** How many of the first children have been polled, and whether the new booster has. */
  datatype Place = Place(polled: nat, newToo: bool)

  /** The state of the loop: t and i are the daemon's, `left` the zombies left. */
  ghost predicate Polling(s: State, zombies: map<int, Status>, newPid: int, at: Place, t: State, i: nat,
                          left: map<int, Status>, effects: seq<Effect>)
  {
    && at.polled <= |s.children|
    && t == AfterPolling(s, at.polled, zombies.Keys, newPid)
    && i == |Survivors(s.children[..at.polled], zombies.Keys)| + (if at.newToo then 1 else 0)
    && (at.newToo ==> at.polled == |s.children|)
    && left == zombies - Gone(s.children[..at.polled], zombies.Keys)
    && effects == ReapEffects(s, s.children[..at.polled], zombies, newPid)
  }

  lemma StartPolling(s: State, zombies: map<int, Status>, newPid: int)
    ensures Polling(s, zombies, newPid, Place(0, false), s, 0, zombies, [])
  {
    PolledNone(s, zombies.Keys, newPid);
    assert zombies - {} == zombies;
  }

  lemma StopPolling(s: State, zombies: map<int, Status>, newPid: int, at: Place, t: State, i: nat,
                    left: map<int, Status>, effects: seq<Effect>)
    requires Polling(s, zombies, newPid, at, t, i, left, effects) && i >= |t.children|
    requires forall z :: z in zombies ==> z in s.children
    ensures t == AfterReap(s, zombies.Keys, newPid) && left == map[]
    ensures effects == ReapEffects(s, s.children, zombies, newPid)
  {
    if at.polled < |s.children| {
      StillToPoll(s, at.polled, zombies.Keys, newPid);
    }
    assert s.children[..|s.children|] == s.children;
    PolledAll(s, zombies, newPid);
  }

  lemma OnePollDead(s: State, zombies: map<int, Status>, newPid: int, at: Place, t: State, i: nat,
                    left: map<int, Status>, effects: seq<Effect>)
    requires Consistent(s) && FreshForReap(s, zombies, newPid)
    requires Polling(s, zombies, newPid, at, t, i, left, effects)
    requires at.polled < |s.children| && s.children[at.polled] in zombies
    ensures var c := s.children[at.polled];
            && i < |t.children| && t.children[i] == c && c in left
            && (c == t.boosterPid ==> newPid !in t.children[..i] + t.children[i + 1..])
            && Polling(s, zombies, newPid, Place(at.polled + 1, false), AfterDeath(t, i, newPid), i, left - {c},
                       effects + DeathEffects(t, c, left[c], newPid))
  {
    var j := at.polled;
    PollNext(s, j, zombies.Keys);
    assert s.children[..j + 1][..j] == s.children[..j];
    PollDead(s, j, zombies, newPid);
    PollDeadEffects(s, j, zombies, newPid);
    hide Consistent, FreshForReap, AfterPolling, AfterDeath, DeathEffects, Survivors;
    assert left - {s.children[j]} == zombies - Gone(s.children[..j + 1], zombies.Keys);
  }

  lemma OnePollAlive(s: State, zombies: map<int, Status>, newPid: int, at: Place, t: State, i: nat,
                     left: map<int, Status>, effects: seq<Effect>)
    requires Consistent(s)
    requires Polling(s, zombies, newPid, at, t, i, left, effects)
    requires at.polled < |s.children| && s.children[at.polled] !in zombies
    ensures var c := s.children[at.polled];
            && i < |t.children| && t.children[i] == c && c !in left
            && Polling(s, zombies, newPid, Place(at.polled + 1, false), t, i + 1, left, effects)
  {
    var j := at.polled;
    PollNext(s, j, zombies.Keys);
    assert s.children[..j + 1][..j] == s.children[..j];
    PollAlive(s, j, zombies, newPid);
    hide Consistent, AfterPolling, Survivors;
    assert effects + [] == effects;
  }

  /** One turn of the loop. */
  lemma OnePoll(s: State, zombies: map<int, Status>, newPid: int, at: Place, t: State, i: nat,
                left: map<int, Status>, effects: seq<Effect>) returns (next: Place)
    requires Consistent(s) && FreshForReap(s, zombies, newPid)
    requires Polling(s, zombies, newPid, at, t, i, left, effects) && i < |t.children|
    ensures var c := t.children[i];
            && c > 0 && newPid > 0
            && (c !in left ==> Polling(s, zombies, newPid, next, t, i + 1, left, effects))
            && (c in left ==>
                  && (c == t.boosterPid ==> newPid !in t.children[..i] + t.children[i + 1..])
                  && Polling(s, zombies, newPid, next, AfterDeath(t, i, newPid), i, left - {c},
                             effects + DeathEffects(t, c, left[c], newPid)))
  {
    var j := at.polled;
    assert newPid > 0;
    if j < |s.children| {
      next := Place(j + 1, false);
      PolledChild(s, j);
      if s.children[j] in zombies {
        OnePollDead(s, zombies, newPid, at, t, i, left, effects);
      } else {
        OnePollAlive(s, zombies, newPid, at, t, i, left, effects);
      }
      hide Polling, AfterDeath, DeathEffects, Consistent, FreshForReap;
    } else {
      next := Place(j, true);
      assert s.children[..j] == s.children;
      PolledNew(s, zombies, newPid, i);
      hide AfterPolling, AfterDeath, DeathEffects, Consistent, FreshForReap;
    }
  }

  lemma PollNext(s: State, j: nat, dead: set<int>)
    requires Distinct(s.children) && j < |s.children|
    ensures var c, polled, next := s.children[j], s.children[..j], s.children[..j + 1];
            && s.children[j..] == [c] + s.children[j + 1..]
            && Survivors(next, dead) == Survivors(polled, dead) + (if c in dead then [] else [c])
            && Gone(next, dead) == Gone(polled, dead) + (if c in dead then {c} else {})
            && c !in Gone(polled, dead)
            && (s.boosterPid in Gone(polled, dead) ==> s.boosterPid in polled)
            && s.invokerPid - Gone(next, dead) == (s.invokerPid - Gone(polled, dead)) - (if c in dead then {c} else {})
            && s.invokerFd - Gone(next, dead) == (s.invokerFd - Gone(polled, dead)) - (if c in dead then {c} else {})
  {
    var c, polled := s.children[j], s.children[..j];
    assert s.children[..j + 1][..j] == polled && s.children[..j + 1] == polled + [c];
  }
}

module DaemonProcess {
  import opened DaemonState

  /** The system under the daemon: children that ended and are not waited for yet, what fork will return,
      and what the daemon has done. */
  class Kernel {
    var zombies: map<int, Status>
    var nextPid: int
    var trace: seq<Effect>

    /** waitpid with WNOHANG on a child: 0, or the pid asked for. */
    method Waitpid(pid: int) returns (r: int, status: Status)
      modifies this`zombies
      ensures r == if pid in old(zombies) then pid else 0
      ensures pid in old(zombies) ==> status == old(zombies)[pid]
      ensures zombies == old(zombies) - {pid}
    {
      if pid in zombies {
        r, status := pid, zombies[pid];
      } else {
        r, status := 0, Exited(0);
      }
      zombies := zombies - {pid};
    }

    method Record(e: Effect)
      modifies this`trace
      ensures trace == old(trace) + [e]
    {
      trace := trace + [e];
    }
  }

  class Daemon {
    const kernel: Kernel
    var children: seq<int>
    var capacity: nat
    var boosterPid: int
    var bootMode: bool
    var invokerPid: map<int, int>
    var invokerFd: map<int, int>

    ghost function View(): State
      reads this
    {
      State(children, boosterPid, bootMode, invokerPid, invokerFd)
    }

    ghost predicate Valid()
      reads this
    {
      Consistent(View()) && |children| <= capacity
    }

    /** Start-up: the first booster is forked. */
    constructor (kernel: Kernel, boot: bool)
      requires kernel.nextPid > 0
      modifies kernel`trace
      ensures Valid() && this.kernel == kernel
      ensures View() == State([kernel.nextPid], kernel.nextPid, boot, map[], map[])
      ensures kernel.trace == old(kernel.trace) + [Forked(kernel.nextPid, boot, 0)]
    {
      this.kernel := kernel;
      children, capacity, boosterPid, bootMode, invokerPid, invokerFd := [], 0, 0, boot, map[], map[];
      new;
      ForkBooster(0);
    }

    /** vector::push_back: a full vector is moved to a larger block, which invalidates iterators. */
    method PushBack(pid: int)
      requires |children| <= capacity
      modifies this`children, this`capacity
      ensures children == old(children) + [pid] && |children| <= capacity
      ensures old(|children| < capacity) ==> capacity == old(capacity)
    {
      if |children| == capacity {
        capacity := 2 * capacity + 1;
      }
      children := children + [pid];
    }

    method ForkBooster(sleepTime: int)
      requires |children| <= capacity
      modifies this, kernel`trace
      ensures View() == AfterFork(old(View()), kernel.nextPid) && |children| <= capacity
      ensures old(|children| < capacity) ==> capacity == old(capacity)
      ensures kernel.trace == old(kernel.trace) + [ForkEffect(old(View()), kernel.nextPid, sleepTime)]
      ensures kernel.trace == old(kernel.trace) + [Forked(kernel.nextPid, bootMode, if bootMode then 0 else sleepTime)]
      ensures children == old(children) + [kernel.nextPid] && boosterPid == kernel.nextPid && bootMode == old(bootMode)
      ensures invokerPid == old(invokerPid) && invokerFd == old(invokerFd)
    {
      boosterPid := 0;
      var newPid := kernel.nextPid;
      kernel.Record(Forked(newPid, bootMode, if bootMode then 0 else sleepTime));
      PushBack(newPid);
      boosterPid := newPid;
    }

    method KillProcess(pid: int, sig: int)
      modifies kernel`trace
      ensures kernel.trace == old(kernel.trace) + if pid > 0 then [Killed(pid, sig)] else []
    {
      if pid > 0 {
        kernel.Record(Killed(pid, sig));
      }
    }

    /** A datagram from a booster: the invoker's pid, its connection, and the delay it asked for.  If there is none
        to be had, the daemon exits and forks nothing. */
    method ReadFromBoosterSocket(received: bool, invoker: int, fd: int, delay: int) returns (goesOn: bool)
      requires Valid() && kernel.nextPid > 0 && kernel.nextPid !in children && fd !in invokerFd.Values
      modifies this, kernel`trace
      ensures Valid() && goesOn == received
      ensures received ==> View() == AfterDatagram(old(View()), invoker, fd, kernel.nextPid)
      ensures received ==>
                kernel.trace == old(kernel.trace) + [Forked(kernel.nextPid, bootMode, if bootMode then 0 else delay)]
      ensures received ==> children == old(children) + [kernel.nextPid] && boosterPid == kernel.nextPid
      ensures received && invoker != 0 ==> && invokerPid == old(invokerPid)[old(boosterPid) := invoker]
                                           && invokerFd == old(invokerFd)[old(boosterPid) := fd]
      ensures received && invoker == 0 ==> invokerPid == old(invokerPid) && invokerFd == old(invokerFd)
      ensures !received ==> View() == old(View()) && kernel.trace == old(kernel.trace)
    {
      if !received {
        return false;
      }
      DatagramKeepsConsistent(View(), invoker, fd, kernel.nextPid);
      if invoker != 0 {
        if boosterPid != 0 {
          invokerPid := invokerPid[boosterPid := invoker];
          invokerFd := invokerFd[boosterPid := fd];
        }
      }
      ForkBooster(delay);
      goesOn := true;
    }

    /** The body of the loop in reapZombies, for a child that waitpid has returned. */
    method Bury(i: nat, pid: int, status: Status)
      requires Valid() && i < |children| && children[i] == pid
      requires pid == boosterPid ==> kernel.nextPid > 0 && kernel.nextPid !in children[..i] + children[i + 1..]
      modifies this, kernel`trace
      ensures Valid() && capacity == old(capacity)
      ensures View() == AfterDeath(old(View()), i, kernel.nextPid)
      ensures kernel.trace == old(kernel.trace) + DeathEffects(old(View()), pid, status, kernel.nextPid)
    {
      assert pid in invokerPid <==> pid in invokerFd;
      DeathKeepsConsistent(View(), i, kernel.nextPid);
      hide Consistent;
      children := children[..i] + children[i + 1..];
      if pid in invokerPid {
        TellInvoker(pid, status);
      }
      assert kernel.trace == old(kernel.trace) + FarewellEffects(old(View()), pid, status);
      if pid == boosterPid {
        ForkBooster(BOOSTER_SLEEP_TIME);
      }
    }

    /** What a dead child's invoker gets, and the end of the mapping. */
    method TellInvoker(pid: int, status: Status)
      requires pid in invokerPid && pid in invokerFd
      modifies this`invokerPid, this`invokerFd, kernel`trace
      ensures invokerPid == old(invokerPid) - {pid} && invokerFd == old(invokerFd) - {pid}
      ensures kernel.trace == old(kernel.trace) + FarewellEffects(old(View()), pid, status)
    {
      match status {
        case Exited(code) =>
          if pid in invokerFd {
            kernel.Record(WroteExit(invokerFd[pid], code));
            kernel.Record(Closed(invokerFd[pid]));
            invokerFd := invokerFd - {pid};
          }
        case Signaled(sig) =>
          var invoker := invokerPid[pid];
          if pid in invokerFd {
            kernel.Record(Closed(invokerFd[pid]));
            invokerFd := invokerFd - {pid};
          }
          KillProcess(invoker, sig);
      }
      invokerPid := invokerPid - {pid};
    }

    /** Erases from and appends to the vector it walks over, without ever growing its block. */
    method ReapZombies()
      requires Valid() && FreshForReap(View(), kernel.zombies, kernel.nextPid)
      requires forall z :: z in kernel.zombies ==> z in children
      modifies this, kernel`zombies, kernel`trace
      ensures Valid() && capacity == old(capacity) && kernel.zombies == map[]
      ensures View() == AfterReap(old(View()), old(kernel.zombies).Keys, kernel.nextPid)
      ensures kernel.trace == old(kernel.trace) +
                              ReapEffects(old(View()), old(children), old(kernel.zombies), kernel.nextPid)
    {
      hide Consistent, FreshForReap, Polling, AfterDeath, DeathEffects, ReapEffects, AfterReap;
      ghost var s, z, newPid := View(), kernel.zombies, kernel.nextPid;
      ghost var at, effects := Place(0, false), [];
      StartPolling(s, z, newPid);
      var i := 0;
      while i < |children|
        invariant Polling(s, z, newPid, at, View(), i, kernel.zombies, effects)
        invariant kernel.trace == old(kernel.trace) + effects
        invariant Valid() && capacity == old(capacity)
        decreases kernel.zombies.Keys, |children| - i
      {
        ghost var next := OnePoll(s, z, newPid, at, View(), i, kernel.zombies, effects);
        ghost var was, left, trace := View(), kernel.zombies, kernel.trace;
        var pid, status := kernel.Waitpid(children[i]);
        if pid != 0 {
          Bury(i, pid, status);
          ghost var added := DeathEffects(was, pid, status, newPid);
          assert trace + added == old(kernel.trace) + (effects + added);
          effects := effects + added;
        } else {
          assert left - {was.children[i]} == left;
          i := i + 1;
        }
        at := next;
      }
      StopPolling(s, z, newPid, at, View(), i, kernel.zombies, effects);
    }

    method EnterNormalMode()
      requires Valid()
      modifies this`bootMode, kernel`trace
      ensures Valid()
      ensures View() == AfterMode(old(View()), false)
      ensures kernel.trace == old(kernel.trace) + ModeEffects(old(View()), false)
      ensures !bootMode && kernel.trace == old(kernel.trace) + if old(bootMode) then [Killed(boosterPid, 15)] else []
    {
      if bootMode {
        bootMode := false;
        KillBoosters();
      }
    }

    method EnterBootMode()
      requires Valid()
      modifies this`bootMode, kernel`trace
      ensures Valid()
      ensures View() == AfterMode(old(View()), true)
      ensures kernel.trace == old(kernel.trace) + ModeEffects(old(View()), true)
      ensures bootMode && kernel.trace == old(kernel.trace) + if old(bootMode) then [] else [Killed(boosterPid, 15)]
    {
      if !bootMode {
        bootMode := true;
        KillBoosters();
      }
    }

    method KillBoosters()
      modifies kernel`trace
      ensures kernel.trace == old(kernel.trace) + if boosterPid > 0 then [Killed(boosterPid, SIGTERM)] else []
    {
      if boosterPid != 0 {
        KillProcess(boosterPid, SIGTERM);
      }
    }
  }
}
