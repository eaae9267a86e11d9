/** Single-instance launching: src/single-instance/main.cpp and the lock loop of src/launcherlib/booster.cpp. */
module SingleInstance {

  /** One process's view of the lock files: the plugin's descriptor, the process's open lock files, and the owner
      of every record lock.  A lock belongs to a process and a file, whatever the descriptor it was taken on. */
  datatype Handle = Handle(lockFd: int, fds: map<int, int>, locks: map<int, int>)

  function Open(h: Handle, file: int, fd: int): Handle {
    h.(lockFd := fd, fds := h.fds[fd := file])
  }

  predicate Grants(h: Handle, file: int, pid: int) { file in h.locks ==> h.locks[file] == pid }

  function Grant(h: Handle, file: int, pid: int): Handle {
    h.(locks := h.locks[file := pid])
  }

  /** Closing any descriptor of a file gives up the process's lock on that file. */
  function Close(h: Handle, fd: int, pid: int): Handle {
    if fd !in h.fds then h
    else
      var file := h.fds[fd];
      h.(fds := h.fds - {fd}, locks := if file in h.locks && h.locks[file] == pid then h.locks - {file} else h.locks)
  }

  /** How the system calls of an attempt go: no directory, no file, or a descriptor, with F_SETLK failing for a
      reason other than another lock if `error`. */
  datatype Attempt = NoDirectory | NoFile | Opens(fd: int, error: bool)

  /** The plugin in one process. */
  class Plugin {
    const pid: int
    var lockFd: int
    var fds: map<int, int>
    var locks: map<int, int>

    function View(): Handle
      reads this
    {
      Handle(lockFd, fds, locks)
    }

    constructor (pid: int, fds: map<int, int>, locks: map<int, int>)
      ensures this.pid == pid && View() == Handle(-1, fds, locks)
    {
      this.pid, lockFd, this.fds, this.locks := pid, -1, fds, locks;
    }

    method Assign(h: Handle)
      modifies this
      ensures View() == h
    {
      lockFd, fds, locks := h.lockFd, h.fds, h.locks;
    }

    /** Succeeds exactly when the file can be opened and no other process has it locked.  An attempt that fails
        leaves no descriptor open, though it keeps the number of the one it closed; it costs the process a lock it
        had on the same file. */
    method Lock(file: int, attempt: Attempt) returns (ok: bool)
      requires attempt.Opens? ==> attempt.fd >= 0 && attempt.fd !in fds
      modifies this
      ensures ok <==> attempt.Opens? && !attempt.error && (file in old(locks) ==> old(locks)[file] == pid)
      ensures ok ==> View() == Handle(attempt.fd, old(fds)[attempt.fd := file], old(locks)[file := pid])
      ensures !ok ==> fds == old(fds)
      ensures !ok ==> lockFd == match attempt
                                case NoDirectory => old(lockFd)
                                case NoFile => -1
                                case Opens(fd, _) => fd
      ensures !ok ==> locks == if attempt.Opens? && file in old(locks) && old(locks)[file] == pid
                               then old(locks) - {file} else old(locks)
    {
      if attempt.NoDirectory? {
        return false;
      }
      if attempt.NoFile? {
        lockFd := -1;
        return false;
      }
      Assign(Open(View(), file, attempt.fd));
      if attempt.error || !Grants(View(), file, pid) {
        Assign(Close(View(), lockFd, pid));
        assert fds == old(fds);
        return false;
      }
      Assign(Grant(View(), file, pid));
      ok := true;
    }

    /** Gives back what a successful attempt took, and does nothing the second time. */
    method Unlock()
      requires -1 !in fds
      modifies this
      ensures lockFd == -1 && fds == old(fds) - {old(lockFd)}
      ensures locks == if old(lockFd) in old(fds) && old(fds)[old(lockFd)] in old(locks)
                          && old(locks)[old(fds)[old(lockFd)]] == pid
                       then old(locks) - {old(fds)[old(lockFd)]} else old(locks)
    {
      if lockFd != -1 {
        Assign(Close(View(), lockFd, pid));
        lockFd := -1;
      }
    }
  }

  // ---- any number of boosters and standalone launchers ----

  datatype Kind = Booster(plugin: bool) | Launcher

  datatype Phase =
    | Accepting                // a booster waiting for a request
    | Locking                  // in lock(), before the lock file is open
    | Opened                   // the lock file is open
    | Losing                   // F_SETLK has failed, the file is still open
    | Refused                  // lock() has returned false
    | Ready(locked: bool)      // about to start the application
    | Running(locked: bool)    // the application, in the same process

  /** `base` is the process's XDG_RUNTIME_DIR; `told` counts its datagrams to the daemon. */
  datatype Proc = Proc(kind: Kind, base: string, name: string, single: bool, phase: Phase, lockFd: int,
                       fds: map<int, int>, told: nat)

  datatype System = System(procs: map<int, Proc>, locks: map<int, int>, fileOf: string -> int)

  function LockPath(base: string, name: string): string {
    base + "/single-instance-locks/" + name + "/instance.lock"
  }

  function FileOf(s: System, p: int): int
    requires p in s.procs
  {
    s.fileOf(LockPath(s.procs[p].base, s.procs[p].name))
  }

  datatype Event =
    | SpawnBooster(p: int, base: string, plugin: bool)
    | SpawnLauncher(p: int, base: string, name: string)
    | Request(p: int, name: string, single: bool)
    | NoLockFile(p: int, directory: bool)
    | OpenFile(p: int, fd: int)
    | TryLock(p: int, error: bool)
    | CloseFile(p: int)
    | Activate(p: int)
    | Start(p: int)
    | ExecFails(p: int)
    | Exit(p: int)

  function Init(fileOf: string -> int): System { System(map[], map[], fileOf) }

  predicate At(s: System, p: int, phase: Phase) { p in s.procs && s.procs[p].phase == phase }

  predicate IsReady(s: System, p: int) { p in s.procs && s.procs[p].phase.Ready? }

  predicate Enabled(s: System, e: Event) {
    match e
    case SpawnBooster(p, _, _) => p !in s.procs
    case SpawnLauncher(p, _, _) => p !in s.procs
    case Request(p, _, _) => At(s, p, Accepting)
    case NoLockFile(p, _) => At(s, p, Locking)
    case OpenFile(p, fd) => At(s, p, Locking) && fd >= 0 && fd !in s.procs[p].fds
    case TryLock(p, _) => At(s, p, Opened)
    case CloseFile(p) => At(s, p, Losing)
    case Activate(p) => At(s, p, Refused)
    case Start(p) => IsReady(s, p)
    case ExecFails(p) => IsReady(s, p) && s.procs[p].kind.Launcher?
    case Exit(p) => p in s.procs
  }

  function HandleOf(s: System, p: int): Handle
    requires p in s.procs
  {
    Handle(s.procs[p].lockFd, s.procs[p].fds, s.locks)
  }

  /** The process goes on in a phase with what it has now. */
  function Continue(s: System, p: int, h: Handle, phase: Phase): System
    requires p in s.procs
  {
    s.(procs := s.procs[p := s.procs[p].(phase := phase, lockFd := h.lockFd, fds := h.fds)], locks := h.locks)
  }

  /** The death of a process gives up its locks. */
  function Gone(s: System, p: int): System {
    s.(procs := s.procs - {p}, locks := map f | f in s.locks && s.locks[f] != p :: s.locks[f])
  }

  function Next(s: System, e: Event): System
    requires Enabled(s, e)
  {
    match e
    case SpawnBooster(p, base, plugin) =>
      s.(procs := s.procs[p := Proc(Booster(plugin), base, "", false, Accepting, -1, map[], 0)])
    case SpawnLauncher(p, base, name) =>
      s.(procs := s.procs[p := Proc(Launcher, base, name, true, Locking, -1, map[], 0)])
    case Request(p, name, single) =>
      var c := s.procs[p];
      s.(procs := s.procs[p := c.(name := name, single := single,
                                  phase := if single && Guarded(c.kind) then Locking else Ready(false))])
    case NoLockFile(p, directory) =>
      var h := HandleOf(s, p);
      Continue(s, p, if directory then h else h.(lockFd := -1), Refused)
    case OpenFile(p, fd) => Continue(s, p, Open(HandleOf(s, p), FileOf(s, p), fd), Opened)
    case TryLock(p, error) =>
      var h := HandleOf(s, p);
      if error || !Grants(h, FileOf(s, p), p) then Continue(s, p, h, Losing)
      else Continue(s, p, Grant(h, FileOf(s, p), p), Ready(true))
    case CloseFile(p) => Continue(s, p, Close(HandleOf(s, p), s.procs[p].lockFd, p), Refused)
    case Activate(p) =>
      if s.procs[p].kind.Launcher? then Gone(s, p) else Continue(s, p, HandleOf(s, p), Accepting)
    case Start(p) =>
      var c := s.procs[p];
      s.(procs := s.procs[p := c.(phase := Running(c.phase.locked),
                                  told := if c.kind.Booster? then c.told + 1 else c.told)])
    case ExecFails(p) => Gone(Continue(s, p, Close(HandleOf(s, p), s.procs[p].lockFd, p), Refused), p)
    case Exit(p) => Gone(s, p)
  }

  /** A process of this kind that is to launch a single instance goes through the lock. */
  predicate Guarded(kind: Kind) { kind.Launcher? || kind.plugin }

  ghost predicate IsRun(ss: seq<System>, es: seq<Event>) {
    && |ss| == |es| + 1
    && ss[0].procs == map[] && ss[0].locks == map[]
    && forall k :: 0 <= k < |es| ==> Enabled(ss[k], es[k]) && ss[k + 1] == Next(ss[k], es[k])
  }

  // ---- the invariant ----

  /** The process runs, or is about to run, its application as the single instance. */
  predicate Holds(s: System, p: int) {
    p in s.procs && (s.procs[p].phase == Ready(true) || s.procs[p].phase == Running(true))
  }

  predicate ProcOk(s: System, p: int)
    requires p in s.procs
  {
    var c := s.procs[p];
    && (match c.phase
        case Accepting => c.kind.Booster? && c.fds == map[]
        case Locking => c.single && Guarded(c.kind) && c.fds == map[]
        case Refused => c.single && Guarded(c.kind) && c.fds == map[]
        case Opened => c.single && Guarded(c.kind) && c.fds == map[c.lockFd := FileOf(s, p)]
        case Losing => c.single && Guarded(c.kind) && c.fds == map[c.lockFd := FileOf(s, p)]
        case Ready(locked) => locked == (c.single && Guarded(c.kind)) && HoldsOne(s, p, locked)
        case Running(locked) => locked == (c.single && Guarded(c.kind)) && HoldsOne(s, p, locked))
    && (c.kind.Launcher? ==> c.single)
    && c.told == if c.kind.Booster? && c.phase.Running? then 1 else 0
  }

  predicate HoldsOne(s: System, p: int, locked: bool)
    requires p in s.procs
  {
    if locked then
      && s.procs[p].fds == map[s.procs[p].lockFd := FileOf(s, p)]
      && FileOf(s, p) in s.locks && s.locks[FileOf(s, p)] == p
    else s.procs[p].fds == map[]
  }

  ghost predicate Inv(s: System) {
    && (forall p :: p in s.procs ==> ProcOk(s, p))
    && (forall f :: f in s.locks ==> Holds(s, s.locks[f]) && FileOf(s, s.locks[f]) == f)
  }

  lemma GoneKeeps(s: System, p: int)
    requires Inv(s) && p in s.procs
    ensures Inv(Gone(s, p))
  {
    var s' := Gone(s, p);
    forall q | q in s'.procs
      ensures ProcOk(s', q)
    {
      assert ProcOk(s, q);
    }
  }

  /** A step of one process that leaves the locks of the others alone. */
  lemma StepKeeps(s: System, p: int, h: Handle, phase: Phase)
    requires Inv(s) && p in s.procs
    requires ProcOk(Continue(s, p, h, phase), p)
    requires forall f :: f in h.locks && h.locks[f] == p ==> Holds(Continue(s, p, h, phase), p) && f == FileOf(s, p)
    requires forall f :: f in h.locks && h.locks[f] != p ==> f in s.locks && s.locks[f] == h.locks[f]
    requires forall f :: f in s.locks && s.locks[f] != p ==> f in h.locks && s.locks[f] == h.locks[f]
    ensures Inv(Continue(s, p, h, phase))
  {
    var s' := Continue(s, p, h, phase);
    forall q | q in s'.procs
      ensures ProcOk(s', q)
    {
      assert ProcOk(s, q);
    }
  }

  lemma AttemptKeeps(s: System, e: Event)
    requires Inv(s) && Enabled(s, e) && (e.NoLockFile? || e.OpenFile? || e.TryLock? || e.CloseFile?)
    ensures Inv(Next(s, e))
    ensures e.CloseFile? ==> Next(s, e).locks == s.locks
  {
    var p := e.p;
    assert ProcOk(s, p);
    match e
    case NoLockFile(_, directory) =>
      var h := HandleOf(s, p);
      StepKeeps(s, p, if directory then h else h.(lockFd := -1), Refused);
    case OpenFile(_, fd) => StepKeeps(s, p, Open(HandleOf(s, p), FileOf(s, p), fd), Opened);
    case TryLock(_, error) =>
      var h := HandleOf(s, p);
      if error || !Grants(h, FileOf(s, p), p) {
        StepKeeps(s, p, h, Losing);
      } else {
        StepKeeps(s, p, Grant(h, FileOf(s, p), p), Ready(true));
      }
    case CloseFile(_) =>
      var h := Close(HandleOf(s, p), s.procs[p].lockFd, p);
      assert h.fds == map[];
      assert h.locks == s.locks;
      StepKeeps(s, p, h, Refused);
  }

  lemma EventKeeps(s: System, e: Event)
    requires Inv(s) && Enabled(s, e)
    ensures Inv(Next(s, e))
  {
    match e
    case NoLockFile(_, _) => AttemptKeeps(s, e);
    case OpenFile(_, _) => AttemptKeeps(s, e);
    case TryLock(_, _) => AttemptKeeps(s, e);
    case CloseFile(_) => AttemptKeeps(s, e);
    case Exit(p) => GoneKeeps(s, p);
    case ExecFails(p) =>
      ExecFailureIsExit(s, p);
      GoneKeeps(s, p);
    case Activate(p) => ActivateKeeps(s, p);
    case _ => LockFreeKeeps(s, e);
  }

  /** The events that touch no lock file. */
  lemma LockFreeKeeps(s: System, e: Event)
    requires Inv(s) && Enabled(s, e) && (e.SpawnBooster? || e.SpawnLauncher? || e.Request? || e.Start?)
    ensures Inv(Next(s, e))
  {
    var s' := Next(s, e);
    if e.p in s.procs {
      assert ProcOk(s, e.p);
    }
    OneProcKeeps(s, s', e.p);
  }

  lemma OneProcKeeps(s: System, s': System, p: int)
    requires Inv(s) && p in s'.procs && s' == s.(procs := s.procs[p := s'.procs[p]]) && ProcOk(s', p)
    requires p in s.procs && Holds(s, p) ==> Holds(s', p) && FileOf(s', p) == FileOf(s, p)
    ensures Inv(s')
  {
    forall q | q in s.procs && q != p
      ensures ProcOk(s', q)
    {
      assert ProcOk(s, q);
    }
  }

  lemma ActivateKeeps(s: System, p: int)
    requires Inv(s) && Enabled(s, Activate(p))
    ensures Inv(Next(s, Activate(p)))
  {
    assert ProcOk(s, p);
    if s.procs[p].kind.Launcher? {
      GoneKeeps(s, p);
    } else {
      StepKeeps(s, p, HandleOf(s, p), Accepting);
    }
  }

  /** unlock() after a failed exec gives back exactly what the exit of the process would. */
  lemma ExecFailureIsExit(s: System, p: int)
    requires Inv(s) && Enabled(s, ExecFails(p))
    ensures Next(s, ExecFails(p)) == Gone(s, p)
    ensures s.procs[p].lockFd in s.procs[p].fds && Close(HandleOf(s, p), s.procs[p].lockFd, p).locks == Gone(s, p).locks
  {
    assert ProcOk(s, p);
    var h := Close(HandleOf(s, p), s.procs[p].lockFd, p);
    forall f | f in s.locks && s.locks[f] == p
      ensures f == FileOf(s, p)
    {
    }
    assert h.locks == Gone(s, p).locks;
    assert Next(s, ExecFails(p)).procs == Gone(s, p).procs;
    assert Next(s, ExecFails(p)).locks == Gone(s, p).locks;
  }

  lemma {:induction false} RunsKeepInvariant(ss: seq<System>, es: seq<Event>, k: nat)
    requires IsRun(ss, es) && k <= |es|
    ensures Inv(ss[k])
  {
    if k > 0 {
      RunsKeepInvariant(ss, es, k - 1);
      EventKeeps(ss[k - 1], es[k - 1]);
    }
  }

  // ---- the theorems ----

  /** The process was asked for a single instance, and it locks: a launcher always does, a booster with the plugin. */
  predicate AsksForLock(c: Proc) {
    c.single && match c.kind case Launcher => true case Booster(plugin) => plugin
  }

  /** In every state of every run, two processes that run the same application, were asked for a single instance and
      have the plugin or are launchers, with the same runtime directory, are one process; and a process runs with a
      lock exactly when it is such a process. */
  lemma MutualExclusion(ss: seq<System>, es: seq<Event>, k: nat, p: int, q: int)
    requires IsRun(ss, es) && k <= |es| && p in ss[k].procs && q in ss[k].procs
    ensures var c, d := ss[k].procs[p], ss[k].procs[q];
            (&& c.phase.Running? && d.phase.Running? && AsksForLock(c) && AsksForLock(d)
             && c.base == d.base && c.name == d.name) ==> p == q
    ensures var s := ss[k];
            Holds(s, p) && Holds(s, q) && FileOf(s, p) == FileOf(s, q) ==> p == q
    ensures forall locked :: ss[k].procs[p].phase == Running(locked) ==> locked == AsksForLock(ss[k].procs[p])
  {
    RunsKeepInvariant(ss, es, k);
    assert ProcOk(ss[k], p) && ProcOk(ss[k], q);
  }

  /** Different applications have different lock files. */
  lemma PathTellsName(base: string, a: string, b: string)
    ensures LockPath(base, a) == LockPath(base, b) <==> a == b
    ensures LockPath(base, a) == base + "/single-instance-locks/" + a + "/instance.lock"
  {
    var front, back := base + "/single-instance-locks/", "/instance.lock";
    var m, n := front + a + back, front + b + back;
    if m == n {
      assert |a| == |b|;
      assert a == m[|front|..|front| + |a|] && b == n[|front|..|front| + |b|];
    }
  }

  /** The process is about to run, or runs, its application with the lock. */
  predicate RunsLocked(s: System, p: int) {
    p in s.procs && (s.procs[p].phase == Ready(true) || s.procs[p].phase == Running(true))
  }

  /** For processes with one runtime directory and files told apart by their paths: an attempt without error is granted
      exactly when no other process runs the application of that name with the lock. */
  lemma LockGrantedByName(ss: seq<System>, es: seq<Event>, k: nat)
    requires IsRun(ss, es) && k < |es| && es[k].TryLock?
    requires forall a, b :: ss[k].fileOf(a) == ss[k].fileOf(b) ==> a == b
    requires forall q :: q in ss[k].procs ==> ss[k].procs[q].base == ss[k].procs[es[k].p].base
    ensures At(ss[k + 1], es[k].p, Ready(true)) <==>
              !es[k].error
              && forall q :: q in ss[k].procs && q != es[k].p && RunsLocked(ss[k], q) ==>
                   ss[k].procs[q].name != ss[k].procs[es[k].p].name
    ensures !At(ss[k + 1], es[k].p, Ready(true)) ==> At(ss[k + 1], es[k].p, Losing)
  {
    LockGrantedIff(ss, es, k);
    var s, p := ss[k], es[k].p;
    hide LockPath;
    forall q | q in s.procs
      ensures FileOf(s, q) == FileOf(s, p) <==> s.procs[q].name == s.procs[p].name
    {
      PathTellsName(s.procs[p].base, s.procs[q].name, s.procs[p].name);
    }
  }

  /** In every state of every run a process's name is that of its latest request, or of its start as a launcher. */
  lemma {:induction false} NameIsLatest(ss: seq<System>, es: seq<Event>, j: nat, k: nat)
    requires IsRun(ss, es) && j < k <= |es| && (es[j].Request? || es[j].SpawnLauncher?)
    requires forall i :: j < i < k ==> !Renames(es[i], es[j].p)
    ensures es[j].p in ss[k].procs ==> ss[k].procs[es[j].p].name == es[j].name
    ensures es[j].p in ss[k].procs ==> ss[k].procs[es[j].p].single == (es[j].Request? ==> es[j].single)
    decreases k
  {
    hide Enabled, Next, Renames;
    if k == j + 1 {
      NamedNow(ss[j], es[j]);
    } else {
      NameIsLatest(ss, es, j, k - 1);
      if es[j].p in ss[k].procs {
        NameStays(ss[k - 1], es[k - 1], es[j].p);
      }
    }
  }

  lemma NamedNow(s: System, e: Event)
    requires Enabled(s, e) && (e.Request? || e.SpawnLauncher?)
    ensures e.p in Next(s, e).procs && Next(s, e).procs[e.p].name == e.name
    ensures Next(s, e).procs[e.p].single == (e.Request? ==> e.single)
  {
    hide FileOf, Open, Grants, Grant, Close;
  }

  predicate Renames(e: Event, p: int) { (e.Request? || e.SpawnLauncher? || e.SpawnBooster?) && e.p == p }

  lemma NameStays(s: System, e: Event, p: int)
    requires Enabled(s, e) && !Renames(e, p) && p in Next(s, e).procs
    ensures p in s.procs && Next(s, e).procs[p].name == s.procs[p].name
    ensures Next(s, e).procs[p].single == s.procs[p].single
  {
    hide FileOf, Open, Grants, Grant, Close;
  }

  /** An attempt that cannot make the directory or open the file is refused and changes no lock. */
  lemma NoFileIsRefused(s: System, p: int, directory: bool)
    requires Enabled(s, NoLockFile(p, directory))
    ensures var s' := Next(s, NoLockFile(p, directory));
            && At(s', p, Refused) && s'.locks == s.locks && s'.procs[p].fds == s.procs[p].fds
            && s'.procs[p].lockFd == if directory then s.procs[p].lockFd else -1
  {
  }

  /** An attempt in the plugin, step by step in the system: it comes to Ready exactly when lock() succeeds, and leaves
      the descriptor and the locks that lock() leaves. */
  lemma AttemptIsLock(s: System, p: int, fd: int, error: bool)
    requires Inv(s) && Enabled(s, OpenFile(p, fd))
    ensures var s1 := Next(s, OpenFile(p, fd));
            var f := FileOf(s, p);
            var ok := !error && (f in s.locks ==> s.locks[f] == p);
            && Enabled(s1, TryLock(p, error))
            && var s2 := Next(s1, TryLock(p, error));
            && (At(s2, p, Ready(true)) <==> ok)
            && (ok ==> HandleOf(s2, p) == Handle(fd, s.procs[p].fds[fd := f], s.locks[f := p]))
            && (!ok ==> Enabled(s2, CloseFile(p))
                        && HandleOf(Next(s2, CloseFile(p)), p) ==
                           Handle(fd, s.procs[p].fds,
                                  if f in s.locks && s.locks[f] == p then s.locks - {f} else s.locks))
  {
    assert ProcOk(s, p);
    var s1 := Next(s, OpenFile(p, fd));
    assert s1.procs[p].fds - {fd} == s.procs[p].fds;
  }

  /** An attempt that reaches F_SETLK succeeds exactly when the call does not fail otherwise and no other live
      process runs the application as a single instance. */
  lemma LockGrantedIff(ss: seq<System>, es: seq<Event>, k: nat)
    requires IsRun(ss, es) && k < |es| && es[k].TryLock?
    ensures Holds(ss[k + 1], es[k].p) <==>
              !es[k].error
              && forall q :: q in ss[k].procs && q != es[k].p && Holds(ss[k], q) ==>
                   FileOf(ss[k], q) != FileOf(ss[k], es[k].p)
  {
    RunsKeepInvariant(ss, es, k);
    var s, p := ss[k], es[k].p;
    var f := FileOf(s, p);
    assert ProcOk(s, p);
    if f in s.locks {
      assert Holds(s, s.locks[f]) && FileOf(s, s.locks[f]) == f && s.locks[f] != p;
    } else {
      forall q | q in s.procs && q != p && Holds(s, q)
        ensures FileOf(s, q) != f
      {
        assert ProcOk(s, q);
      }
    }
  }

  /** Closing the file after a failed attempt gives up no lock at all. */
  lemma FailedAttemptKeepsLocks(ss: seq<System>, es: seq<Event>, k: nat)
    requires IsRun(ss, es) && k < |es| && es[k].CloseFile?
    ensures ss[k + 1].locks == ss[k].locks && ss[k + 1].procs[es[k].p].fds == map[]
    ensures forall q :: Holds(ss[k], q) ==> Holds(ss[k + 1], q)
  {
    RunsKeepInvariant(ss, es, k);
    AttemptKeeps(ss[k], es[k]);
    EventKeeps(ss[k], es[k]);
    assert ProcOk(ss[k + 1], es[k].p);
  }

  /** A booster that is refused goes back to accepting requests; however often that happens, it has told the daemon
      nothing, and it tells it once, when it starts an application.  A launcher that is refused exits. */
  lemma LoserAcceptsAgain(ss: seq<System>, es: seq<Event>, k: nat, p: int)
    requires IsRun(ss, es) && k <= |es| && p in ss[k].procs
    ensures ss[k].procs[p].told == if ss[k].procs[p].kind.Booster? && ss[k].procs[p].phase.Running? then 1 else 0
    ensures k < |es| && es[k] == Activate(p) && ss[k].procs[p].kind.Booster? ==>
              At(ss[k + 1], p, Accepting) && ss[k + 1].procs[p].told == 0 && ss[k + 1].procs[p].fds == map[]
    ensures k < |es| && es[k] == Activate(p) && ss[k].procs[p].kind.Launcher? ==> p !in ss[k + 1].procs
    ensures k < |es| && es[k] == Activate(p) ==> ss[k + 1].locks == ss[k].locks
  {
    RunsKeepInvariant(ss, es, k);
    assert ProcOk(ss[k], p);
    if k < |es| && es[k] == Activate(p) {
      var s := ss[k];
      assert forall f :: f in s.locks ==> s.locks[f] != p;
      assert Gone(s, p).locks == s.locks;
    }
  }

  /** Without the plugin nothing stops two boosters from running the same single-instance application. */
  lemma NotExclusiveWithoutPlugin(fileOf: string -> int, base: string, name: string)
    ensures exists s :: && Reached(s) && 1 in s.procs && 2 in s.procs && FileOf(s, 1) == FileOf(s, 2)
                        && s.procs[1].single && s.procs[1].phase == Running(false)
                        && s.procs[2].single && s.procs[2].phase == Running(false)
  {
    hide Reached, LockPath;
    NothingYet(fileOf);
    var idle := Proc(Booster(false), base, "", false, Accepting, -1, map[], 0);
    var ready := idle.(name := name, single := true, phase := Ready(false));
    var running := ready.(phase := Running(false), told := 1);
    var s1 := System(map[1 := idle], map[], fileOf);
    Step(Init(fileOf), SpawnBooster(1, base, false), s1);
    var s2 := System(map[1 := idle, 2 := idle], map[], fileOf);
    Step(s1, SpawnBooster(2, base, false), s2);
    var s3 := System(map[1 := ready, 2 := idle], map[], fileOf);
    Step(s2, Request(1, name, true), s3);
    var s4 := System(map[1 := ready, 2 := ready], map[], fileOf);
    Step(s3, Request(2, name, true), s4);
    var s5 := System(map[1 := running, 2 := ready], map[], fileOf);
    Step(s4, Start(1), s5);
    var s6 := System(map[1 := running, 2 := running], map[], fileOf);
    Step(s5, Start(2), s6);
  }

  ghost predicate Reached(s: System) { exists ss, es :: IsRun(ss, es) && ss[|es|] == s }

  lemma Step(s: System, e: Event, s': System)
    requires Reached(s) && Enabled(s, e) && s' == Next(s, e)
    ensures Reached(s')
  {
    hide Enabled, Next;
    var ss, es :| IsRun(ss, es) && ss[|es|] == s;
    var ss', es' := Extended(ss, es, e);
    assert ss'[|es'|] == s';
  }

  /** A booster with the plugin that has been asked for a single instance. */
  function Asking(base: string, name: string, phase: Phase, lockFd: int, fds: map<int, int>, told: nat): Proc {
    Proc(Booster(true), base, name, true, phase, lockFd, fds, told)
  }

  /** Booster 1 runs the application, and booster 2 has been refused and accepts again. */
  function RefusedState(fileOf: string -> int, base: string, name: string): System {
    var f := fileOf(LockPath(base, name));
    System(map[1 := Asking(base, name, Running(true), 3, map[3 := f], 1),
               2 := Asking(base, name, Accepting, 3, map[], 0)],
           map[f := 1], fileOf)
  }

  /** Booster 1 has ended, and booster 2 runs the application. */
  function GrantedState(fileOf: string -> int, base: string, name: string): System {
    var f := fileOf(LockPath(base, name));
    System(map[2 := Asking(base, name, Running(true), 3, map[3 := f], 1)], map[f := 2], fileOf)
  }

  function IdleBooster(base: string): Proc { Proc(Booster(true), base, "", false, Accepting, -1, map[], 0) }

  /** Booster 1 runs the application; booster 2 has had no request yet. */
  function FirstState(fileOf: string -> int, base: string, name: string): System {
    var f := fileOf(LockPath(base, name));
    System(map[1 := Asking(base, name, Running(true), 3, map[3 := f], 1), 2 := IdleBooster(base)], map[f := 1], fileOf)
  }

  /** A booster accepts a single-instance request, opens the lock file, and tries the lock. */
  lemma Attempted(s: System, p: int, name: string, s': System)
    requires Reached(s) && At(s, p, Accepting) && s.procs[p].kind == Booster(true) && s.procs[p].fds == map[]
    requires var c, f := s.procs[p], s.fileOf(LockPath(s.procs[p].base, name));
             var refused := f in s.locks && s.locks[f] != p;
             s' == s.(procs := s.procs[p := Asking(c.base, name, if refused then Losing else Ready(true), 3,
                                                   map[3 := f], c.told)],
                      locks := if refused then s.locks else s.locks[f := p])
    ensures Reached(s')
  {
    hide Reached, LockPath;
    var c, f := s.procs[p], s.fileOf(LockPath(s.procs[p].base, name));
    var one := Asking(c.base, name, Locking, c.lockFd, map[], c.told);
    var s1 := s.(procs := s.procs[p := one]);
    Step(s, Request(p, name, true), s1);
    var s2 := s.(procs := s.procs[p := one.(phase := Opened, lockFd := 3, fds := map[3 := f])]);
    assert s1.procs[p := s2.procs[p]] == s2.procs;
    Step(s1, OpenFile(p, 3), s2);
    assert s2.procs[p := s'.procs[p]] == s'.procs;
    Step(s2, TryLock(p, false), s');
  }

  lemma FirstRuns(fileOf: string -> int, base: string, name: string)
    ensures Reached(FirstState(fileOf, base, name))
  {
    hide Reached, LockPath;
    var idle, f := IdleBooster(base), fileOf(LockPath(base, name));
    NothingYet(fileOf);
    var s1 := System(map[1 := idle], map[], fileOf);
    Step(Init(fileOf), SpawnBooster(1, base, true), s1);
    var s2 := System(map[1 := idle, 2 := idle], map[], fileOf);
    Step(s1, SpawnBooster(2, base, true), s2);
    var s3 := System(map[1 := Asking(base, name, Ready(true), 3, map[3 := f], 0), 2 := idle], map[f := 1], fileOf);
    Attempted(s2, 1, name, s3);
    Step(s3, Start(1), FirstState(fileOf, base, name));
  }

  lemma SecondIsRefused(fileOf: string -> int, base: string, name: string)
    requires Reached(FirstState(fileOf, base, name))
    ensures Reached(RefusedState(fileOf, base, name))
  {
    hide Reached, LockPath;
    var s, f := FirstState(fileOf, base, name), fileOf(LockPath(base, name));
    var one := s.procs[1];
    var s1 := s.(procs := map[1 := one, 2 := Asking(base, name, Losing, 3, map[3 := f], 0)]);
    Attempted(s, 2, name, s1);
    var s2 := s.(procs := map[1 := one, 2 := Asking(base, name, Refused, 3, map[], 0)]);
    assert s1.procs[2].fds - {3} == map[];
    Step(s1, CloseFile(2), s2);
    Step(s2, Activate(2), RefusedState(fileOf, base, name));
  }

  /** With the plugin a second booster is refused while the first runs the application, accepts again, and is granted
      the lock when the first has ended. */
  lemma RefusedThenGranted(fileOf: string -> int, base: string, name: string)
    ensures Reached(RefusedState(fileOf, base, name)) && Reached(GrantedState(fileOf, base, name))
  {
    hide Reached, LockPath;
    FirstRuns(fileOf, base, name);
    SecondIsRefused(fileOf, base, name);
    var s, f := RefusedState(fileOf, base, name), fileOf(LockPath(base, name));
    var s1 := System(map[2 := s.procs[2]], map[], fileOf);
    assert s.procs - {1} == s1.procs;
    Step(s, Exit(1), s1);
    var s2 := System(map[2 := Asking(base, name, Ready(true), 3, map[3 := f], 0)], map[f := 2], fileOf);
    Attempted(s1, 2, name, s2);
    Step(s2, Start(2), GrantedState(fileOf, base, name));
  }

  lemma NothingYet(fileOf: string -> int)
    ensures Reached(Init(fileOf))
  {
    var ss, es: seq<Event> := [Init(fileOf)], [];
    assert IsRun(ss, es) && ss[|es|] == Init(fileOf);
  }

  lemma Extended(ss: seq<System>, es: seq<Event>, e: Event) returns (ss': seq<System>, es': seq<Event>)
    requires IsRun(ss, es) && Enabled(ss[|es|], e)
    ensures IsRun(ss', es') && ss'[|es'|] == Next(ss[|es|], e)
  {
    hide Enabled, Next;
    ss', es' := ss + [Next(ss[|es|], e)], es + [e];
  }
}

/** The loop of Booster::initialize that serves requests until one is to be launched. */
module BoosterLoop {
  import opened Protocol
  import SingleInstance

  /** A request and what becomes of it: unreadable, or read.  Then there is the lock file of its application, the locks
      that are held and how the system calls go when lock() is called, and what activateExistingInstance() returns. */
  datatype Asked =
    | Unreadable
    | Readable(single: bool, waits: bool, invoker: int, delay: int, file: int, locks: map<int, int>,
               attempt: SingleInstance.Attempt, activated: bool)

  datatype Outcome = Threw(k: nat) | Launches(k: nat) | Listening

  /** The message to the daemon: the invoker's pid if it waits, the respawn delay, and whether the connection goes
      with it. */
  datatype Message = Message(invoker: int, delay: int, connection: bool)

  class Booster {
    const pid: int
    var entry: SingleInstance.Plugin?
    var replies: seq<seq<word>>    // what each request was answered, besides the acknowledgement
    var told: seq<Message>

    constructor (entry: SingleInstance.Plugin?, pid: int)
      ensures this.entry == entry && this.pid == pid && replies == [] && told == []
    {
      this.entry, this.pid, replies, told := entry, pid, [], [];
    }

    method SendDataToParent(r: Asked)
      requires r.Readable?
      modifies this`told
      ensures told == old(told) + [Message(if r.waits then r.invoker else 0, r.delay, r.waits)]
    {
      var invoker := if r.waits then r.invoker else 0;
      told := told + [Message(invoker, r.delay, r.waits)];
    }

    /** One request that has been read. */
    method Serve(r: Asked) returns (launches: bool)
      requires r.Readable? && (entry != null ==> MayAttempt(entry, pid, r))
      modifies this, entry
      ensures launches <==> (r.single && old(entry) != null ==> LockFree(r, pid))
      ensures launches ==> replies == old(replies)
                           && told == old(told) + [Message(if r.waits then r.invoker else 0, r.delay, r.waits)]
                           && entry == (if r.single then null else old(entry))
                           && (r.single && old(entry) != null ==> old(entry).locks == r.locks[r.file := pid])
      ensures !launches ==>
                && replies == old(replies) + [if r.waits then [MSG_EXIT, if r.activated then 0 else 1] else []]
                && told == old(told) && entry == old(entry) && entry != null && entry.fds == old(entry.fds)
    {
      if r.single {
        if entry != null {
          entry.locks := r.locks;
          var locked := entry.Lock(r.file, r.attempt);
          if !locked {
            var status := if r.activated then 0 else 1;
            replies := replies + [if r.waits then [MSG_EXIT, status] else []];
            return false;
          }
          entry := null;
        }
      }
      SendDataToParent(r);
      launches := true;
    }

    /** A request that cannot be read ends the loop.  One that can is launched, and ends it, exactly if it does not ask
        for a single instance, there is no plugin, or its lock is granted.  Any other is answered, if its invoker
        waits, with the status that says whether the running instance came up, and the daemon does not hear of it. */
    method Initialize(requests: seq<Asked>) returns (o: Outcome)
      requires replies == [] && told == []
      requires entry != null ==>
                 forall i :: 0 <= i < |requests| && requests[i].Readable? ==> MayAttempt(entry, pid, requests[i])
      modifies this, entry
      ensures match o
              case Listening => |replies| == |requests|
              case Threw(k) => k == |replies| < |requests| && requests[k].Unreadable?
              case Launches(k) =>
                k == |replies| < |requests| && requests[k].Readable?
                && (requests[k].single && old(entry) != null ==>
                      && requests[k].attempt.Opens? && !requests[k].attempt.error
                      && (requests[k].file in requests[k].locks ==> requests[k].locks[requests[k].file] == pid))
      ensures |replies| > 0 ==> old(entry) != null
      ensures forall i :: 0 <= i < |replies| && i < |requests| ==>
                && requests[i].Readable? && requests[i].single
                && !(requests[i].attempt.Opens? && !requests[i].attempt.error
                     && (requests[i].file in requests[i].locks ==> requests[i].locks[requests[i].file] == pid))
                && replies[i] == if requests[i].waits then [MSG_EXIT, if requests[i].activated then 0 else 1] else []
      ensures told == if o.Launches?
                      then [Message(if requests[o.k].waits then requests[o.k].invoker else 0,
                                    requests[o.k].delay, requests[o.k].waits)]
                      else []
      ensures entry == if o.Launches? && requests[o.k].single then null else old(entry)
      ensures o.Launches? && requests[o.k].single && old(entry) != null ==>
                old(entry).locks == requests[o.k].locks[requests[o.k].file := pid]
    {
      var i := 0;
      while i < |requests|
        invariant 0 <= i <= |requests| && |replies| == i && told == [] && entry == old(entry)
        invariant entry != null ==> entry.fds == old(entry.fds)
        invariant AllAnswered(requests, replies, pid, old(entry) != null)
      {
        if requests[i].Unreadable? {
          AnsweredIs(requests, replies, pid, old(entry) != null);
          return Threw(i);
        }
        var launches := Serve(requests[i]);
        if launches {
          AnsweredIs(requests, replies, pid, old(entry) != null);
          return Launches(i);
        }
        i := i + 1;
      }
      AnsweredIs(requests, replies, pid, old(entry) != null);
      o := Listening;
    }
  }

  /** Each of them asked for a single instance of an application whose lock was refused, and was told so. */
  ghost predicate AllAnswered(requests: seq<Asked>, replies: seq<seq<word>>, pid: int, plugin: bool) {
    && |replies| <= |requests|
    && forall i :: 0 <= i < |replies| ==> Answered(requests[i], replies[i], pid, plugin)
  }

  predicate Answered(r: Asked, reply: seq<word>, pid: int, plugin: bool) {
    && r.Readable? && r.single && plugin && !LockFree(r, pid)
    && reply == if r.waits then [MSG_EXIT, if r.activated then 0 else 1] else []
  }

  lemma AnsweredIs(requests: seq<Asked>, replies: seq<seq<word>>, pid: int, plugin: bool)
    requires AllAnswered(requests, replies, pid, plugin)
    ensures |replies| > 0 ==> plugin
    ensures forall i :: 0 <= i < |replies| && i < |requests| ==>
              && requests[i].Readable? && requests[i].single
              && !(requests[i].attempt.Opens? && !requests[i].attempt.error
                   && (requests[i].file in requests[i].locks ==> requests[i].locks[requests[i].file] == pid))
              && replies[i] == if requests[i].waits then [MSG_EXIT, if requests[i].activated then 0 else 1] else []
  {
    if |replies| > 0 {
      assert Answered(requests[0], replies[0], pid, plugin);
    }
  }

  /** The plugin is this process's, and the file is opened at a free descriptor, if at all. */
  ghost predicate MayAttempt(entry: SingleInstance.Plugin, pid: int, r: Asked)
    requires r.Readable?
    reads entry
  {
    entry.pid == pid && (r.attempt.Opens? ==> r.attempt.fd >= 0 && r.attempt.fd !in entry.fds)
  }

  /** The call of lock() comes as far as F_SETLK, and that finds no lock of another process. */
  predicate LockFree(r: Asked, pid: int)
    requires r.Readable?
  {
    r.attempt.Opens? && !r.attempt.error && (r.file in r.locks ==> r.locks[r.file] == pid)
  }
}
