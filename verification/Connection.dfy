/** The booster's end of the connection: src/launcherlib/connection.cpp. */
module Receiving {
  import opened Protocol
  import opened Wire

  /** A received string, without its NUL. */
  type Text = seq<byte>

  /** A slot of m_argv: a received string, the NULL of a failed one, or never written. */
  datatype Arg = Str(text: Text) | Null | Unset

  /** The fields of a connection, the unread stream, the reply sent, and the process environment. */
  datatype Link = Link(input: seq<Cell>, output: seq<byte>, fileName: Text, argc: word, argv: seq<Arg>,
                       io: seq<int>, priority: word, delay: word, sendPid: bool, uid: word, gid: word,
                       environ: map<Text, Text>)

  const STR_LEN_MAX := 65536
  const ARG_MAX := 1024
  const MAX_VARS := 1024

  function TakeStr(input: seq<Cell>): (r: (Option<Text>, seq<Cell>))
    ensures |r.1| <= |input|
  {
    var (size, rest) := TakeWord(input);
    if size == 0 || size > STR_LEN_MAX then (None, rest)
    else if |rest| < size then (None, [])
    else (Some(CString(Values(rest[..size - 1]))), rest[size..])
  }

  function Slots(n: nat): (argv: seq<Arg>)
    ensures |argv| == n
  {
    seq(n, _ => Unset)
  }

  /** The slots of argv from the i-th on are received one by one; the first that fails ends it. */
  function TakeArgs(input: seq<Cell>, argv: seq<Arg>, i: nat): (r: (seq<Cell>, seq<Arg>))
    requires i <= |argv|
    ensures |r.0| <= |input| && |r.1| == |argv|
    decreases |argv| - i
  {
    if i == |argv| then (input, argv)
    else
      var (s, rest) := TakeStr(input);
      if s.None? then (rest, argv[i := Null]) else TakeArgs(rest, argv[i := Str(s.value)], i + 1)
  }

  /** n strings can be received one after the other. */
  predicate StrsArrive(input: seq<Cell>, n: nat)
    decreases n
  {
    n == 0 || (TakeStr(input).0.Some? && StrsArrive(TakeStr(input).1, n - 1))
  }

  /** Up to n variables are received and put into the environment one by one. */
  function TakeEnv(input: seq<Cell>, environ: map<Text, Text>, n: nat): (r: (seq<Cell>, map<Text, Text>))
    ensures |r.0| <= |input|
    decreases n
  {
    if n == 0 then (input, environ)
    else
      var (s, rest) := TakeStr(input);
      if s.None? then (rest, environ) else TakeEnv(rest, PutEnv(environ, s.value), n - 1)
  }

  const EQUALS: byte := '=' as int

  /** putenv: the variable's name is what precedes the first '='. */
  function EnvName(entry: Text): (name: Text)
    requires EQUALS in entry
    decreases |entry|
  {
    if entry[0] == EQUALS then [] else [entry[0]] + EnvName(entry[1..])
  }

  function PutEnv(environ: map<Text, Text>, entry: Text): map<Text, Text> {
    if EQUALS in entry then environ[EnvName(entry) := entry] else environ
  }

  lemma TakeEnvStep(input: seq<Cell>, environ: map<Text, Text>, n: nat)
    requires n > 0
    ensures var (s, rest) := TakeStr(input);
            TakeEnv(input, environ, n) ==
            if s.None? then (rest, environ) else TakeEnv(rest, PutEnv(environ, s.value), n - 1)
  {
  }

  // ---- one function for each receiver ----

  function AfterExec(l: Link): Link {
    var (s, rest) := TakeStr(l.input);
    if s.None? then l.(input := rest) else l.(input := rest, fileName := s.value)
  }

  function AfterArgs(l: Link): Link {
    var (n, rest) := TakeWord(l.input);
    if 0 < n < ARG_MAX then
      var (rest', argv) := TakeArgs(rest, Slots(n), 0);
      l.(input := rest', argc := n, argv := argv)
    else l.(input := rest, argc := n)
  }

  /** What receiveArgs returns; nobody looks at it. */
  predicate ArgsOk(l: Link) {
    var (n, rest) := TakeWord(l.input);
    0 < n < ARG_MAX && StrsArrive(rest, n)
  }

  function AfterEnv(l: Link): Link {
    var (n, rest) := TakeWord(l.input);
    if 0 < n < MAX_VARS then
      var (rest', environ) := TakeEnv(rest, l.environ, n);
      l.(input := rest', environ := environ)
    else l.(input := rest)
  }

  predicate EnvOk(l: Link) {
    var (n, rest) := TakeWord(l.input);
    0 < n < MAX_VARS && StrsArrive(rest, n)
  }

  function AfterPriority(l: Link): Link {
    var (w, rest) := TakeWord(l.input);
    l.(input := rest, priority := w)
  }

  function AfterDelay(l: Link): Link {
    var (w, rest) := TakeWord(l.input);
    l.(input := rest, delay := w)
  }

  function AfterIDs(l: Link): Link {
    var (u, rest) := TakeWord(l.input);
    var (g, rest') := TakeWord(rest);
    l.(input := rest', uid := u, gid := g)
  }

  /** recvmsg of one byte: it must come with exactly three descriptors. */
  function AfterIO(l: Link): Link {
    if l.input == [] then l
    else if |l.input[0].files| != 3 then l.(input := l.input[1..])
    else l.(input := l.input[1..], io := l.input[0].files)
  }

  predicate IoOk(l: Link) { l.input != [] && |l.input[0].files| == 3 }

  /** One action whose word has been read already. */
  function AfterAction(action: word, l: Link): (l': Link)
    ensures |l'.input| <= |l.input| && l'.output == l.output && l'.sendPid == l.sendPid
  {
    if action == MSG_EXEC then AfterExec(l)
    else if action == MSG_ARGS then AfterArgs(l)
    else if action == MSG_ENV then AfterEnv(l.(environ := map[]))
    else if action == MSG_PRIO then AfterPriority(l)
    else if action == MSG_DELAY then AfterDelay(l)
    else if action == MSG_IO then AfterIO(l)
    else if action == MSG_IDS then AfterIDs(l)
    else l
  }

  function AckBytes(sendPid: bool, pid: word): seq<byte> {
    if sendPid then WordBytes(MSG_ACK) + WordBytes(MSG_PID) + WordBytes(pid) else WordBytes(MSG_ACK)
  }

  function AfterActions(l: Link, pid: word): (r: (bool, Link))
    decreases |l.input|
  {
    var (action, rest) := TakeWord(l.input);
    var l1 := l.(input := rest);
    if action == MSG_END then (true, l1.(output := l1.output + AckBytes(l1.sendPid, pid)))
    else if !IsAction(action) then (false, l1)
    else AfterActions(AfterAction(action, l1), pid)
  }

  const BAD_MAGIC: word := 0xffff_ffff

  /** The options word, or BAD_MAGIC; only a wrong version under the right magic is refused. */
  function AfterMagic(l: Link): (word, Link) {
    var (magic, rest) := TakeWord(l.input);
    if HighHalf(magic) == MAGIC && VersionBits(magic) != MAGIC_VERSION then (BAD_MAGIC, l.(input := rest))
    else (OptionBits(magic), l.(input := rest, sendPid := magic % 2 == 1))
  }

  /** The name, empty when there is none. */
  function AfterName(l: Link): (Text, Link) {
    var (msg, rest) := TakeWord(l.input);
    if msg != MSG_NAME then ([], l.(input := rest))
    else
      var (s, rest') := TakeStr(rest);
      (if s.None? then [] else s.value, l.(input := rest'))
  }

  /** What the booster keeps of an accepted request. */
  datatype AppData = AppData(options: word, appName: Text, fileName: Text, priority: int32, delay: int32,
                             argc: word, argv: seq<Arg>, io: seq<int>, uid: word, gid: word)

  function AfterReceive(l: Link, pid: word): (Option<AppData>, Link) {
    var (options, l1) := AfterMagic(l);
    if options == BAD_MAGIC then (None, l1) else
    var (name, l2) := AfterName(l1);
    if name == [] then (None, l2) else
    var (ok, l3) := AfterActions(l2, pid);
    if !ok then (None, l3) else
    (Some(AppData(options, name, l3.fileName, Signed(l3.priority), Signed(l3.delay), l3.argc, l3.argv, l3.io,
                  l3.uid, l3.gid)), l3)
  }

  class Connection {
    var input: seq<Cell>
    var output: seq<byte>
    var fileName: Text
    var argc: word
    var argv: seq<Arg>
    var io: seq<int>
    var priority: word
    var delay: word
    var sendPid: bool
    var uid: word
    var gid: word
    var environ: map<Text, Text>

    ghost function View(): Link
      reads this
    {
      Link(input, output, fileName, argc, argv, io, priority, delay, sendPid, uid, gid, environ)
    }

    /** A connection just accepted in a process with the given environment. */
    constructor (stream: seq<Cell>, environment: map<Text, Text>)
      ensures View() == Accepted(stream, environment)
    {
      input, output, fileName, argc, argv, io := stream, [], [], 0, [], [-1, -1, -1];
      priority, delay, sendPid, uid, gid, environ := 0, 0, false, 0, 0, environment;
    }

    method SendMsg(msg: word)
      modifies this
      ensures View() == old(View()).(output := old(output) + WordBytes(msg))
    {
      output := output + WordBytes(msg);
    }

    method SendPid(pid: word)
      modifies this
      ensures View() == old(View()).(output := old(output) + WordBytes(MSG_PID) + WordBytes(pid))
    {
      SendMsg(MSG_PID);
      SendMsg(pid);
    }

    method RecvMsg() returns (msg: word)
      modifies this
      ensures msg == TakeWord(old(input)).0
      ensures View() == old(View()).(input := TakeWord(old(input)).1)
      ensures |old(input)| < 4 ==> msg == 0 && input == []
    {
      var got := if |input| < 4 then |input| else 4;
      var buf := Values(input[..got]);
      input := input[got..];
      msg := if got < 4 then 0 else WordOf(buf);
    }

    method RecvStr() returns (str: Option<Text>)
      modifies this
      ensures str == TakeStr(old(input)).0
      ensures View() == old(View()).(input := TakeStr(old(input)).1)
    {
      var size := RecvMsg();
      if size == 0 || size > STR_LEN_MAX {
        return None;
      }
      var got := if |input| < size then |input| else size;
      var buf := Values(input[..got]);
      input := input[got..];
      if got < size {
        return None;
      }
      ghost var text := Values(TakeWord(old(input)).1[..size - 1]);
      assert buf[..size - 1] == text;
      CStringStopsAtNul(buf[..size - 1]);
      buf := buf[size - 1 := 0];
      assert buf == text + [0];
      str := Some(CString(buf));
    }

    method ReceiveMagic() returns (options: word)
      modifies this
      ensures (options, View()) == AfterMagic(old(View()))
    {
      var magic := RecvMsg();
      if HighHalf(magic) == MAGIC {
        if VersionBits(magic) != MAGIC_VERSION {
          return BAD_MAGIC;
        }
      }
      sendPid := magic % 2 == 1;
      options := OptionBits(magic);
    }

    method ReceiveAppName() returns (name: Text)
      modifies this
      ensures (name, View()) == AfterName(old(View()))
    {
      var msg := RecvMsg();
      if msg != MSG_NAME {
        return [];
      }
      var str := RecvStr();
      name := if str.None? then [] else str.value;
    }

    method ReceiveExec()
      modifies this
      ensures View() == AfterExec(old(View()))
    {
      var str := RecvStr();
      if str.Some? {
        fileName := str.value;
      }
    }

    method ReceiveArgs() returns (ok: bool)
      modifies this
      ensures View() == AfterArgs(old(View())) && ok == ArgsOk(old(View()))
    {
      hide TakeStr;
      argc := RecvMsg();
      if !(0 < argc < ARG_MAX) {
        return false;
      }
      argv := Slots(argc);
      ghost var start := View();
      var i := 0;
      while i < argc
        invariant 0 <= i <= argc == |argv|
        invariant StrsArrive(input, argc - i) == StrsArrive(start.input, argc)
        invariant TakeArgs(input, argv, i) == TakeArgs(start.input, start.argv, 0)
        invariant View() == start.(input := input, argv := argv)
      {
        var str := RecvStr();
        if str.None? {
          argv := argv[i := Null];
          return false;
        }
        argv := argv[i := Str(str.value)];
        i := i + 1;
      }
      ok := true;
    }

    method ReceiveEnv() returns (ok: bool)
      modifies this
      ensures View() == AfterEnv(old(View())) && ok == EnvOk(old(View()))
    {
      hide TakeStr, PutEnv;
      var vars := RecvMsg();
      if !(0 < vars < MAX_VARS) {
        return false;
      }
      ghost var start := View();
      var i := 0;
      while i < vars
        invariant 0 <= i <= vars
        invariant StrsArrive(input, vars - i) == StrsArrive(start.input, vars)
        invariant TakeEnv(input, environ, vars - i) == TakeEnv(start.input, start.environ, vars)
        invariant View() == start.(input := input, environ := environ)
      {
        TakeEnvStep(input, environ, vars - i);
        var str := RecvStr();
        if str.None? {
          return false;
        }
        environ := PutEnv(environ, str.value);
        i := i + 1;
      }
      ok := true;
    }

    method ReceiveIO() returns (ok: bool)
      modifies this
      ensures View() == AfterIO(old(View())) && ok == IoOk(old(View()))
      ensures ok <==> old(input) != [] && |old(input)[0].files| == 3
      ensures io == if ok then old(input)[0].files else old(io)
    {
      if input == [] {
        return false;
      }
      var files := input[0].files;
      input := input[1..];
      if |files| != 3 {
        return false;
      }
      io := files;
      ok := true;
    }

    /** The cases of the switch in receiveActions that go on to the next action. */
    method ReceiveAction(action: word)
      modifies this
      ensures View() == AfterAction(action, old(View()))
    {
      hide AfterExec, AfterArgs, AfterEnv, AfterIO, TakeWord;
      if action == MSG_EXEC {
        ReceiveExec();
      } else if action == MSG_ARGS {
        var _ := ReceiveArgs();
      } else if action == MSG_ENV {
        environ := map[];
        var _ := ReceiveEnv();
      } else if action == MSG_PRIO {
        priority := RecvMsg();
      } else if action == MSG_DELAY {
        delay := RecvMsg();
      } else if action == MSG_IO {
        var _ := ReceiveIO();
      } else if action == MSG_IDS {
        uid := RecvMsg();
        gid := RecvMsg();
      }
    }

    method ReceiveActions(pid: word) returns (ok: bool)
      modifies this
      ensures (ok, View()) == AfterActions(old(View()), pid)
    {
      hide AfterAction, AckBytes, WordBytes;
      while true
        invariant AfterActions(View(), pid) == AfterActions(old(View()), pid)
        decreases |input|
      {
        ghost var before := output;
        var action := RecvMsg();
        if action == MSG_END {
          SendMsg(MSG_ACK);
          if sendPid {
            SendPid(pid);
          }
          Acknowledged(before, sendPid, pid);
          return true;
        } else if !IsAction(action) {
          return false;
        }
        ReceiveAction(action);
      }
    }

    method ReceiveApplicationData(pid: word) returns (data: Option<AppData>)
      modifies this
      ensures (data, View()) == AfterReceive(old(View()), pid)
    {
      var options := ReceiveMagic();
      if options == BAD_MAGIC {
        return None;
      }
      var name := ReceiveAppName();
      if name == [] {
        return None;
      }
      var ok := ReceiveActions(pid);
      if !ok {
        return None;
      }
      data := Some(AppData(options, name, fileName, Signed(priority), Signed(delay), argc, argv, io, uid, gid));
    }
  }

  lemma Acknowledged(before: seq<byte>, sendPid: bool, pid: word)
    ensures sendPid ==>
              before + WordBytes(MSG_ACK) + WordBytes(MSG_PID) + WordBytes(pid) == before + AckBytes(true, pid)
    ensures !sendPid ==> before + WordBytes(MSG_ACK) == before + AckBytes(false, pid)
  {
    hide WordBytes;
  }

  function Accepted(stream: seq<Cell>, environment: map<Text, Text>): Link {
    Link(stream, [], [], 0, [], [-1, -1, -1], 0, 0, false, 0, 0, environment)
  }

  lemma {:induction false} CStringStopsAtNul(bs: seq<byte>)
    ensures CString(bs + [0]) == CString(bs)
  {
    if bs != [] && bs[0] != 0 {
      assert (bs + [0])[1..] == bs[1..] + [0];
      CStringStopsAtNul(bs[1..]);
    }
  }
}
