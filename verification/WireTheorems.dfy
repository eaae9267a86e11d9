/** What the receiver makes of what the sender sends. */
module WireTheorems {
  import opened Protocol
  import opened Wire
  import opened Receiving

  // ---- the limits ----

  predicate FitsStr(s: CStr) { |s| + 1 <= STR_LEN_MAX }

  predicate FitStrs(ss: seq<CStr>) { forall k :: 0 <= k < |ss| ==> FitsStr(ss[k]) }

  predicate FitsBlock(b: Block) {
    match b
    case Exec(file) => FitsStr(file)
    case Args(args) => |args| < ARG_MAX && FitStrs(args)
    case Env(entries) => |entries| < MAX_VARS && FitStrs(entries)
    case _ => true
  }

  predicate FitBlocks(bs: seq<Block>) { forall k :: 0 <= k < |bs| ==> FitsBlock(bs[k]) }

  /** Sizes below the smallest action word, 0x10fd0000, which the system's own limit on a string is far below. */
  predicate SaneStr(s: CStr) { |s| + 1 < MSG_IO }

  predicate SaneStrs(ss: seq<CStr>) {
    |ss| < 0x8000_0000 && forall k :: 0 <= k < |ss| ==> SaneStr(ss[k])
  }

  /** A block the invoker can send: it has an argument at least, and sends its three descriptors. */
  predicate SaneBlock(b: Block) {
    match b
    case Exec(file) => SaneStr(file)
    case Args(args) => args != [] && SaneStrs(args)
    case Env(entries) => SaneStrs(entries)
    case Io(files) => |files| == 3
    case _ => true
  }

  predicate SaneBlocks(bs: seq<Block>) { forall k :: 0 <= k < |bs| ==> SaneBlock(bs[k]) }

  // ---- what a request means ----

  function PutEnvs(environ: map<Text, Text>, entries: seq<CStr>): map<Text, Text> {
    if entries == [] then environ
    else PutEnv(PutEnvs(environ, entries[..|entries| - 1]), entries[|entries| - 1])
  }

  function Strs(ss: seq<CStr>): (slots: seq<Arg>)
    ensures |slots| == |ss|
  {
    seq(|ss|, k requires 0 <= k < |ss| => Str(ss[k]))
  }

  function Apply(b: Block, l: Link): Link {
    match b
    case Exec(file) => l.(fileName := file)
    case Args(args) => l.(argc := |args| % 0x1_0000_0000, argv := Strs(args))
    case Prio(priority) => l.(priority := Unsigned(priority))
    case Delay(delay) => l.(delay := Unsigned(delay))
    case Ids(uid, gid) => l.(uid := Unsigned(uid), gid := Unsigned(gid))
    case Io(files) => l.(io := files)
    case Env(entries) => l.(environ := PutEnvs(map[], entries))
  }

  function ApplyAll(bs: seq<Block>, l: Link): Link {
    if bs == [] then l else ApplyAll(bs[1..], Apply(bs[0], l))
  }

  // ---- strings ----

  /** A string that fits is received whole; one that does not is left in the stream. */
  lemma TakeStrOfCells(s: CStr, tail: seq<Cell>)
    requires |s| + 1 < 0x10fd0000
    ensures |s| + 1 <= 65536 ==> TakeStr(StrCells(s) + tail) == (Some(s), tail)
    ensures |s| + 1 > 65536 ==> TakeStr(StrCells(s) + tail) == (None, Plain(s + [0]) + tail)
  {
    hide WordCells, StrCells, TakeWord, CString;
    var size := |s| + 1;
    var body := Plain(s + [0]) + tail;
    StrCellsOf(s);
    assert StrCells(s) + tail == WordCells(size) + body;
    TakeWordCells(size, body);
    assert Values(body[..size - 1]) == s;
    assert body[size..] == tail;
    CStringOfText(s);
  }

  lemma StrCellsOf(s: CStr)
    requires SaneStr(s)
    ensures StrCells(s) == WordCells(|s| + 1) + Plain(s + [0])
  {
    hide WordCells;
    assert (s + [0])[..|s| + 1] == s + [0];
  }

  lemma {:induction false} TakeArgsOfCells(ss: seq<CStr>, argv: seq<Arg>, i: nat, tail: seq<Cell>)
    requires i <= |argv| == |ss| && FitStrs(ss) && SaneStrs(ss)
    requires argv[..i] == Strs(ss)[..i]
    ensures TakeArgs(StrsCells(ss[i..]) + tail, argv, i) == (tail, Strs(ss))
    decreases |ss| - i
  {
    hide TakeStr, StrCells;
    if i == |ss| {
      assert argv[..i] == argv && Strs(ss)[..i] == Strs(ss);
      assert StrsCells(ss[i..]) + tail == tail;
    } else {
      assert ss[i..][1..] == ss[i + 1..];
      var later := StrsCells(ss[i + 1..]) + tail;
      assert StrsCells(ss[i..]) + tail == StrCells(ss[i]) + later;
      TakeStrOfCells(ss[i], later);
      TakeArgsOfCells(ss, argv[i := Str(ss[i])], i + 1, tail);
    }
  }

  lemma {:induction false} TakeEnvOfCells(environ: map<Text, Text>, done: seq<CStr>, ss: seq<CStr>, tail: seq<Cell>)
    requires FitStrs(ss) && SaneStrs(ss)
    ensures TakeEnv(StrsCells(ss) + tail, PutEnvs(environ, done), |ss|) == (tail, PutEnvs(environ, done + ss))
    decreases |ss|
  {
    hide TakeStr, StrCells, PutEnv;
    if ss == [] {
      assert done + ss == done && StrsCells(ss) + tail == tail;
    } else {
      var later := StrsCells(ss[1..]) + tail;
      assert StrsCells(ss) + tail == StrCells(ss[0]) + later;
      TakeStrOfCells(ss[0], later);
      TakeEnvStep(StrsCells(ss) + tail, PutEnvs(environ, done), |ss|);
      assert (done + [ss[0]])[..|done|] == done;
      TakeEnvOfCells(environ, done + [ss[0]], ss[1..], tail);
      assert done + [ss[0]] + ss[1..] == done + ss;
    }
  }

  // ---- one block ----

  lemma ArgsDecode(args: seq<CStr>, l: Link, tail: seq<Cell>)
    requires SaneBlock(Args(args)) && FitsBlock(Args(args))
    requires l.input == Payload(Args(args), 0) + tail
    ensures AfterArgs(l) == Apply(Args(args), l).(input := tail)
  {
    hide TakeArgs, TakeWord, WordCells, StrsCells;
    assert l.input == WordCells(|args|) + (StrsCells(args) + tail);
    TakeWordCells(|args|, StrsCells(args) + tail);
    var unset := Slots(|args|);
    assert args[0..] == args;
    assert unset[..0] == Strs(args)[..0];
    TakeArgsOfCells(args, unset, 0, tail);
  }

  lemma EnvDecode(entries: seq<CStr>, l: Link, tail: seq<Cell>)
    requires SaneBlock(Env(entries)) && FitsBlock(Env(entries))
    requires l.input == Payload(Env(entries), 0) + tail && l.environ == map[]
    ensures AfterEnv(l) == Apply(Env(entries), l).(input := tail)
  {
    hide TakeEnv, TakeWord, WordCells, PutEnv;
    assert l.input == WordCells(|entries|) + (StrsCells(entries) + tail);
    TakeWordCells(|entries|, StrsCells(entries) + tail);
    assert [] + entries == entries;
    TakeEnvOfCells(map[], [], entries, tail);
    if entries == [] {
      assert StrsCells(entries) + tail == tail;
    }
  }

  /** A block within the limits is decoded to what it says, and nothing else of the stream is touched. */
  lemma BlockDecodes(b: Block, dummy: byte, l: Link, tail: seq<Cell>)
    requires SaneBlock(b) && FitsBlock(b)
    requires l.input == Payload(b, dummy) + tail
    ensures AfterAction(Tag(b), l) == Apply(b, l).(input := tail)
  {
    hide TakeStr, StrCells, AfterArgs, AfterEnv, TakeWord, WordCells;
    match b
    case Exec(file) => TakeStrOfCells(file, tail);
    case Prio(priority) => TakeWordCells(Unsigned(priority), tail);
    case Delay(delay) => TakeWordCells(Unsigned(delay), tail);
    case Io(files) => assert l.input[1..] == tail;
    case Ids(uid, gid) =>
      assert l.input == WordCells(Unsigned(uid)) + (WordCells(Unsigned(gid)) + tail);
      TakeWordCells(Unsigned(uid), WordCells(Unsigned(gid)) + tail);
      TakeWordCells(Unsigned(gid), tail);
    case Args(args) => ArgsDecode(args, l, tail);
    case Env(entries) => EnvDecode(entries, l.(environ := map[]), tail);
  }

  // ---- a block over the limits ----

  /** What is left of the stream does not start with an action, so receiveActions gives up. */
  predicate Derailed(input: seq<Cell>) { !IsAction(TakeWord(input).0) }

  lemma TextDerails(s: CStr, tail: seq<Cell>)
    requires |s| >= 4
    ensures Derailed(Plain(s + [0]) + tail)
  {
    var input := Plain(s + [0]) + tail;
    assert Values(input[..4]) == s[..4];
    StringDataIsNoAction(s[..4]);
  }

  lemma SizeDerails(ss: seq<CStr>, tail: seq<Cell>)
    requires ss != [] && SaneStrs(ss)
    ensures Derailed(StrsCells(ss) + tail)
  {
    hide TakeWord, WordCells, StrCells;
    var size, after := |ss[0]| + 1, Plain(ss[0] + [0]) + (StrsCells(ss[1..]) + tail);
    StrCellsOf(ss[0]);
    assert StrsCells(ss) == StrCells(ss[0]) + StrsCells(ss[1..]);
    hide StrsCells;
    assert StrsCells(ss) + tail == WordCells(size) + after;
    TakeWordCells(size, after);
  }

  lemma {:induction false} TakeArgsDerails(ss: seq<CStr>, argv: seq<Arg>, i: nat, tail: seq<Cell>)
    requires i <= |argv| == |ss| && SaneStrs(ss) && !FitStrs(ss[i..])
    ensures Derailed(TakeArgs(StrsCells(ss[i..]) + tail, argv, i).0)
    decreases |ss| - i
  {
    hide TakeStr, StrCells, Derailed;
    assert i < |ss| && ss[i..][1..] == ss[i + 1..];
    var later := StrsCells(ss[i + 1..]) + tail;
    assert StrsCells(ss[i..]) + tail == StrCells(ss[i]) + later;
    TakeStrOfCells(ss[i], later);
    if FitsStr(ss[i]) {
      assert ss[i..] == [ss[i]] + ss[i + 1..];
      TakeArgsDerails(ss, argv[i := Str(ss[i])], i + 1, tail);
    } else {
      TextDerails(ss[i], later);
    }
  }

  lemma {:induction false} TakeEnvDerails(ss: seq<CStr>, environ: map<Text, Text>, tail: seq<Cell>)
    requires SaneStrs(ss) && !FitStrs(ss)
    ensures Derailed(TakeEnv(StrsCells(ss) + tail, environ, |ss|).0)
    decreases |ss|
  {
    hide TakeStr, StrCells, PutEnv, Derailed;
    var later := StrsCells(ss[1..]) + tail;
    assert StrsCells(ss) + tail == StrCells(ss[0]) + later;
    TakeStrOfCells(ss[0], later);
    TakeEnvStep(StrsCells(ss) + tail, environ, |ss|);
    if FitsStr(ss[0]) {
      assert ss == [ss[0]] + ss[1..];
      TakeEnvDerails(ss[1..], PutEnv(environ, ss[0]), tail);
    } else {
      TextDerails(ss[0], later);
    }
  }

  lemma ListDerails(b: Block, dummy: byte, l: Link, tail: seq<Cell>)
    requires SaneBlock(b) && !FitsBlock(b) && (b.Args? || b.Env?)
    requires l.input == Payload(b, dummy) + tail
    ensures Derailed(if b.Args? then AfterArgs(l).input else AfterEnv(l).input)
  {
    hide TakeArgs, TakeEnv, TakeWord, WordCells, StrsCells, Derailed, FitsStr, SaneStr;
    var ss := if b.Args? then b.args else b.entries;
    assert l.input == WordCells(|ss|) + (StrsCells(ss) + tail);
    TakeWordCells(|ss|, StrsCells(ss) + tail);
    if |ss| >= ARG_MAX {
      SizeDerails(ss, tail);
    } else if b.Args? {
      assert ss[0..] == ss;
      TakeArgsDerails(ss, Slots(|ss|), 0, tail);
    } else {
      TakeEnvDerails(ss, l.environ, tail);
    }
  }

  lemma BlockDerails(b: Block, dummy: byte, l: Link, tail: seq<Cell>)
    requires SaneBlock(b) && !FitsBlock(b)
    requires l.input == Payload(b, dummy) + tail
    ensures Derailed(AfterAction(Tag(b), l).input)
  {
    hide TakeStr, StrCells, Derailed, AfterArgs, AfterEnv;
    if b.Exec? {
      TakeStrOfCells(b.file, tail);
      TextDerails(b.file, tail);
    } else {
      ListDerails(b, dummy, if b.Args? then l else l.(environ := map[]), tail);
    }
  }

  // ---- all the blocks ----

  /** The blocks are accepted exactly when each is within the limits; then they are applied in turn. */
  lemma {:induction false} BlocksOutcome(bs: seq<Block>, dummy: byte, l: Link, pid: word, rest: seq<Cell>)
    requires SaneBlocks(bs)
    requires l.input == BlocksCells(bs, dummy) + WordCells(MSG_END) + rest
    ensures AfterActions(l, pid).0 <==> FitBlocks(bs)
    ensures FitBlocks(bs) ==>
              AfterActions(l, pid).1 ==
              ApplyAll(bs, l).(input := rest, output := l.output + AckBytes(l.sendPid, pid))
    decreases |bs|
  {
    hide AfterAction, Payload, TakeWord, WordCells, FitsBlock, SaneBlock;
    if bs == [] {
      assert l.input == WordCells(MSG_END) + rest;
      TakeWordCells(MSG_END, rest);
    } else {
      var b := bs[0];
      var later := BlocksCells(bs[1..], dummy) + WordCells(MSG_END) + rest;
      var l1 := l.(input := Payload(b, dummy) + later);
      assert l.input == WordCells(Tag(b)) + (Payload(b, dummy) + later);
      TakeWordCells(Tag(b), Payload(b, dummy) + later);
      assert IsAction(Tag(b)) && Tag(b) != MSG_END;
      assert bs == [b] + bs[1..];
      if FitsBlock(b) {
        BlockDecodes(b, dummy, l1, later);
        BlocksOutcome(bs[1..], dummy, Apply(b, l1).(input := later), pid, rest);
        ApplyIgnoresInput(b, l, l1, later);
        ApplyAllIgnoresInput(bs[1..], Apply(b, l), Apply(b, l1).(input := later));
      } else {
        BlockDerails(b, dummy, l1, later);
        DerailedFails(AfterAction(Tag(b), l1), pid);
      }
    }
  }

  lemma DerailedFails(l: Link, pid: word)
    requires Derailed(l.input)
    ensures !AfterActions(l, pid).0
  {
  }

  predicate SameButInput(l: Link, m: Link) { l.(input := m.input) == m }

  lemma ApplyIgnoresInput(b: Block, l: Link, m: Link, input: seq<Cell>)
    requires SameButInput(l, m)
    ensures SameButInput(Apply(b, l), Apply(b, m).(input := input))
  {
  }

  lemma {:induction false} ApplyAllIgnoresInput(bs: seq<Block>, l: Link, m: Link)
    requires SameButInput(l, m)
    ensures SameButInput(ApplyAll(bs, l), ApplyAll(bs, m))
    ensures ApplyAll(bs, m).output == m.output && ApplyAll(bs, m).sendPid == m.sendPid
    decreases |bs|
  {
    if bs != [] {
      ApplyIgnoresInput(bs[0], l, m, Apply(bs[0], m).input);
      ApplyAllIgnoresInput(bs[1..], Apply(bs[0], l), Apply(bs[0], m));
    }
  }

  // ---- a whole message ----

  function DataOf(options: byte, name: CStr, l: Link): AppData {
    AppData(options, name, l.fileName, Signed(l.priority), Signed(l.delay), l.argc, l.argv, l.io, l.uid, l.gid)
  }

  predicate Waits(options: byte) { options % 2 == 1 }

  lemma HeaderDecodes(options: byte, name: CStr, l: Link, tail: seq<Cell>)
    requires SaneStr(name)
    requires l.input == HeaderCells(options, name) + tail
    ensures AfterMagic(l).0 == options && AfterMagic(l).1.sendPid == Waits(options)
    ensures AfterMagic(l).1 == l.(input := AfterMagic(l).1.input, sendPid := Waits(options))
    ensures AfterName(AfterMagic(l).1).0 == if FitsStr(name) then name else []
    ensures FitsStr(name) ==>
              AfterName(AfterMagic(l).1).1 == l.(input := tail, sendPid := Waits(options))
  {
    hide TakeWord, WordCells, TakeStr, StrCells;
    var m := MagicWord(options);
    assert l.input == WordCells(m) + (WordCells(MSG_NAME) + (StrCells(name) + tail));
    TakeWordCells(m, WordCells(MSG_NAME) + (StrCells(name) + tail));
    TakeWordCells(MSG_NAME, StrCells(name) + tail);
    TakeStrOfCells(name, tail);
    assert m / 0x10000 == 0xb007 && m / 0x100 == 0xb00703;
  }

  /** A message is accepted exactly when it is within the limits; then it is read to its last byte,
      decoded to what it says, and acknowledged. */
  lemma MessageOutcome(options: byte, name: CStr, bs: seq<Block>, dummy: byte, rest: seq<Cell>,
                       environment: map<Text, Text>, pid: word)
    requires SaneStr(name) && SaneBlocks(bs)
    ensures var l := Accepted(MessageCells(options, name, bs, dummy) + rest, environment);
            var (data, l') := AfterReceive(l, pid);
            && (data.Some? <==> name != [] && FitsStr(name) && FitBlocks(bs))
            && (data.Some? ==>
                  var m := ApplyAll(bs, Accepted(rest, environment));
                  && data.value == DataOf(options, name, m)
                  && l' == m.(input := rest, output := AckBytes(Waits(options), pid), sendPid := Waits(options)))
  {
    hide AfterMagic, AfterName, AfterActions, HeaderCells, WordCells, BlocksCells, FitsBlock, SaneBlock, Apply;
    var l := Accepted(MessageCells(options, name, bs, dummy) + rest, environment);
    var body := BlocksCells(bs, dummy) + WordCells(MSG_END) + rest;
    assert l.input == HeaderCells(options, name) + body;
    HeaderDecodes(options, name, l, body);
    if name != [] && FitsStr(name) {
      var l2 := l.(input := body, sendPid := Waits(options));
      BlocksOutcome(bs, dummy, l2, pid, rest);
      ApplyAllIgnoresSendPid(bs, Accepted(rest, environment), l2);
    }
  }

  lemma {:induction false} ApplyAllIgnoresSendPid(bs: seq<Block>, l: Link, m: Link)
    requires l.(input := m.input, sendPid := m.sendPid) == m
    ensures ApplyAll(bs, l).(input := m.input, sendPid := m.sendPid) == ApplyAll(bs, m)
    ensures ApplyAll(bs, m).input == m.input && ApplyAll(bs, m).sendPid == m.sendPid
    ensures ApplyAll(bs, m).output == m.output
    decreases |bs|
  {
    hide Apply;
    if bs != [] {
      ApplyIgnoresSendPid(bs[0], l, m);
      ApplyAllIgnoresSendPid(bs[1..], Apply(bs[0], l), Apply(bs[0], m));
    }
  }

  lemma ApplyIgnoresSendPid(b: Block, l: Link, m: Link)
    requires l.(input := m.input, sendPid := m.sendPid) == m
    ensures Apply(b, l).(input := m.input, sendPid := m.sendPid) == Apply(b, m)
    ensures Apply(b, m).input == m.input && Apply(b, m).sendPid == m.sendPid && Apply(b, m).output == m.output
  {
    hide PutEnvs, Strs, Unsigned;
  }

  /** The request in terms of the limits, the slots and the environment as they are named here. */
  lemma RequestOutcome(r: Request, dummy: byte, rest: seq<Cell>, environment: map<Text, Text>, pid: word)
    requires SaneStr(r.program) && r.args != [] && SaneStrs(r.args) && SaneStrs(r.environ) && |r.files| == 3
    ensures var (data, l) := AfterReceive(Accepted(RequestCells(r, dummy) + rest, environment), pid);
            && (data.Some? <==> && r.program != [] && FitsStr(r.program)
                                && |r.args| <= 1023 && FitStrs(r.args)
                                && |r.environ| <= 1023 && FitStrs(r.environ))
            && (data.Some? ==>
                  && data.value == AppData(r.options, r.program, r.program, r.priority, r.delay,
                                           |r.args|, Strs(r.args), r.files, Unsigned(r.uid), Unsigned(r.gid))
                  && l.environ == PutEnvs(map[], r.environ)
                  && l.input == rest
                  && l.sendPid == Waits(r.options)
                  && l.output == AckBytes(Waits(r.options), pid))
  {
    hide AfterReceive, MessageCells, PutEnv, FitStrs, FitsStr, SaneStrs, SaneStr;
    var bs := RequestBlocks(r);
    assert SaneBlocks(bs);
    MessageOutcome(r.options, r.program, bs, dummy, rest, environment, pid);
    assert FitBlocks(bs) <==> FitsBlock(bs[0]) && FitsBlock(bs[1]) && FitsBlock(bs[6]) by {
      if FitsBlock(bs[0]) && FitsBlock(bs[1]) && FitsBlock(bs[6]) {
        forall k | 0 <= k < |bs| ensures FitsBlock(bs[k]) {
        }
      }
    }
    RequestApplied(r, Accepted(rest, environment));
  }

  /** Every request the invoker can send, on both sides of the limits: the booster accepts it exactly when
      its name is not empty and its strings and counts are within the limits, and then it has the same
      options, name, file, arguments, signed priority and delay, owner, files and environment, it has left
      exactly the bytes that follow the request, and it has sent the acknowledgement. */
  lemma RequestRoundTrip(r: Request, dummy: byte, rest: seq<Cell>, environment: map<Text, Text>, pid: word)
    requires |r.program| + 1 < 0x10fd0000 && 0 < |r.args| < 0x8000_0000 && |r.environ| < 0x8000_0000 && |r.files| == 3
    requires forall k :: 0 <= k < |r.args| ==> |r.args[k]| + 1 < 0x10fd0000
    requires forall k :: 0 <= k < |r.environ| ==> |r.environ[k]| + 1 < 0x10fd0000
    ensures var (data, l) := AfterReceive(Accepted(RequestCells(r, dummy) + rest, environment), pid);
            && (data.Some? <==> && 1 <= |r.program| && |r.program| + 1 <= 65536
                                && |r.args| <= 1023 && (forall k :: 0 <= k < |r.args| ==> |r.args[k]| + 1 <= 65536)
                                && |r.environ| <= 1023
                                && (forall k :: 0 <= k < |r.environ| ==> |r.environ[k]| + 1 <= 65536))
            && (data.Some? ==>
                  var d := data.value;
                  && d.options == r.options && d.appName == r.program && d.fileName == r.program
                  && d.priority == r.priority && d.delay == r.delay
                  && d.argc == |d.argv| == |r.args| && (forall k :: 0 <= k < |r.args| ==> d.argv[k] == Str(r.args[k]))
                  && d.io == r.files && d.uid == Unsigned(r.uid) && d.gid == Unsigned(r.gid)
                  && l.environ == PutEnvs(map[], r.environ)
                  && l.input == rest
                  && l.sendPid == (r.options % 2 == 1)
                  && l.output == if r.options % 2 == 1
                                 then WordBytes(MSG_ACK) + WordBytes(MSG_PID) + WordBytes(pid) else WordBytes(MSG_ACK))
  {
    RequestOutcome(r, dummy, rest, environment, pid);
    hide AfterReceive, RequestCells, PutEnvs, WordBytes, Unsigned;
  }

  lemma RequestApplied(r: Request, l: Link)
    ensures ApplyAll(RequestBlocks(r), l) ==
            l.(fileName := r.program, argc := |r.args| % 0x1_0000_0000, argv := Strs(r.args),
               priority := Unsigned(r.priority), delay := Unsigned(r.delay),
               uid := Unsigned(r.uid), gid := Unsigned(r.gid), io := r.files,
               environ := PutEnvs(map[], r.environ))
  {
    hide PutEnvs, Strs, ApplyAll, Unsigned;
    SevenBlocks(RequestBlocks(r), l);
  }

  lemma SevenBlocks(bs: seq<Block>, l: Link)
    requires |bs| == 7
    ensures ApplyAll(bs, l) ==
            Apply(bs[6], Apply(bs[5], Apply(bs[4], Apply(bs[3], Apply(bs[2], Apply(bs[1], Apply(bs[0], l)))))))
  {
    hide Apply;
    FirstBlock(bs, 0, l);
    var l1 := Apply(bs[0], l);
    FirstBlock(bs, 1, l1);
    var l2 := Apply(bs[1], l1);
    FirstBlock(bs, 2, l2);
    var l3 := Apply(bs[2], l2);
    FirstBlock(bs, 3, l3);
    var l4 := Apply(bs[3], l3);
    FirstBlock(bs, 4, l4);
    var l5 := Apply(bs[4], l4);
    FirstBlock(bs, 5, l5);
    FirstBlock(bs, 6, Apply(bs[5], l5));
    hide ApplyAll;
    assert bs[0..] == bs && bs[7..] == [];
    NoBlocksApplied(Apply(bs[6], Apply(bs[5], l5)));
  }

  lemma FirstBlock(bs: seq<Block>, k: nat, l: Link)
    requires k < |bs|
    ensures ApplyAll(bs[k..], l) == ApplyAll(bs[k + 1..], Apply(bs[k], l))
  {
    hide Apply;
    assert bs[k..][1..] == bs[k + 1..];
  }

  lemma NoBlocksApplied(l: Link)
    ensures ApplyAll([], l) == l
  {
  }

  // ---- the environment is last-wins ----

  /** The entry is the name, an '=' (61) and the rest; there is no '=' in the name. */
  predicate Defines(entry: Text, name: Text) {
    |name| < |entry| && entry[..|name|] == name && entry[|name|] == 61 && 61 !in name
  }

  lemma {:induction false} NameOf(entry: Text)
    requires EQUALS in entry
    ensures Defines(entry, EnvName(entry))
    decreases |entry|
  {
    if entry[0] != EQUALS {
      var rest := entry[1..];
      assert EQUALS in rest;
      NameOf(rest);
      NameAfterFirst(entry, EnvName(rest));
    }
  }

  lemma NameAfterFirst(entry: Text, name: Text)
    requires entry != [] && entry[0] != EQUALS && Defines(entry[1..], name)
    ensures Defines(entry, [entry[0]] + name)
  {
    assert entry[..|name| + 1] == [entry[0]] + entry[1..][..|name|];
  }

  lemma NotShorter(entry: Text, a: Text, b: Text)
    requires Defines(entry, a) && Defines(entry, b)
    ensures |a| >= |b|
  {
    assert forall k :: 0 <= k < |b| ==> b[k] == entry[k] && b[k] in b;
  }

  lemma DefinesIs(entry: CStr, name: Text)
    ensures Defines(entry, name) <==> EQUALS in entry && EnvName(entry) == name
  {
    hide EnvName;
    if EQUALS in entry {
      NameOf(entry);
      if Defines(entry, name) {
        NotShorter(entry, name, EnvName(entry));
        NotShorter(entry, EnvName(entry), name);
      }
    } else if |name| < |entry| {
      assert entry[|name|] in entry;
    }
  }

  /** A variable is set exactly when some entry with '=' names it, and the last such entry is its value. */
  lemma {:induction false} EnvironmentIsLastWins(entries: seq<CStr>, name: Text)
    ensures name in PutEnvs(map[], entries) <==> exists k :: 0 <= k < |entries| && Defines(entries[k], name)
    ensures forall k :: 0 <= k < |entries| && Defines(entries[k], name)
              && (forall j :: k < j < |entries| ==> !Defines(entries[j], name))
              ==> PutEnvs(map[], entries)[name] == entries[k]
    decreases |entries|
  {
    if entries != [] {
      var n := |entries| - 1;
      var before := entries[..n];
      DefinesIs(entries[n], name);
      hide EnvName, Defines;
      EnvironmentIsLastWins(before, name);
      assert forall k :: 0 <= k < n ==> before[k] == entries[k];
      if Defines(entries[n], name) {
      } else {
        forall k | 0 <= k < |entries| && Defines(entries[k], name)
                   && (forall j :: k < j < |entries| ==> !Defines(entries[j], name))
          ensures PutEnvs(map[], entries)[name] == entries[k]
        {
          assert Defines(before[k], name);
          forall j | k < j < n ensures !Defines(before[j], name) {
            assert !Defines(entries[j], name);
          }
        }
      }
    }
  }

  // ---- the order of the blocks ----

  /** The last block with the given tag. */
  function Latest(bs: seq<Block>, tag: word): (b: Option<Block>)
    ensures b.Some? ==> Tag(b.value) == tag
  {
    if bs == [] then None
    else if Latest(bs[1..], tag).Some? then Latest(bs[1..], tag)
    else if Tag(bs[0]) == tag then Some(bs[0])
    else None
  }

  lemma {:induction false} LatestIsThere(bs: seq<Block>, tag: word)
    ensures Latest(bs, tag).Some? ==> Latest(bs, tag).value in bs
    ensures Latest(bs, tag).None? ==> forall c :: c in bs ==> Tag(c) != tag
  {
    hide Tag;
    if bs != [] {
      LatestIsThere(bs[1..], tag);
      assert forall c :: c in bs ==> c == bs[0] || c in bs[1..];
    }
  }

  /** The link when only the last block of each kind counts. */
  function Overlay(bs: seq<Block>, l: Link): Link {
    l.(fileName := LatestFile(bs, l), argc := LatestArgc(bs, l), argv := LatestArgv(bs, l),
       priority := LatestPriority(bs, l), delay := LatestDelay(bs, l), uid := LatestUid(bs, l),
       gid := LatestGid(bs, l), io := LatestIo(bs, l), environ := LatestEnviron(bs, l))
  }

  function LatestFile(bs: seq<Block>, l: Link): Text {
    var b := Latest(bs, MSG_EXEC); if b.Some? then b.value.file else l.fileName
  }
  function LatestArgc(bs: seq<Block>, l: Link): word {
    var b := Latest(bs, MSG_ARGS); if b.Some? then |b.value.args| % 0x1_0000_0000 else l.argc
  }
  function LatestArgv(bs: seq<Block>, l: Link): seq<Arg> {
    var b := Latest(bs, MSG_ARGS); if b.Some? then Strs(b.value.args) else l.argv
  }
  function LatestPriority(bs: seq<Block>, l: Link): word {
    var b := Latest(bs, MSG_PRIO); if b.Some? then Unsigned(b.value.priority) else l.priority
  }
  function LatestDelay(bs: seq<Block>, l: Link): word {
    var b := Latest(bs, MSG_DELAY); if b.Some? then Unsigned(b.value.delay) else l.delay
  }
  function LatestUid(bs: seq<Block>, l: Link): word {
    var b := Latest(bs, MSG_IDS); if b.Some? then Unsigned(b.value.uid) else l.uid
  }
  function LatestGid(bs: seq<Block>, l: Link): word {
    var b := Latest(bs, MSG_IDS); if b.Some? then Unsigned(b.value.gid) else l.gid
  }
  function LatestIo(bs: seq<Block>, l: Link): seq<int> {
    var b := Latest(bs, MSG_IO); if b.Some? then b.value.files else l.io
  }
  function LatestEnviron(bs: seq<Block>, l: Link): map<Text, Text> {
    var b := Latest(bs, MSG_ENV); if b.Some? then PutEnvs(map[], b.value.entries) else l.environ
  }

  /** Repeated blocks are last-wins, kind by kind. */
  lemma {:induction false} RepeatedBlocksAreLastWins(bs: seq<Block>, l: Link)
    ensures ApplyAll(bs, l) == Overlay(bs, l)
    decreases |bs|
  {
    hide Overlay, Apply;
    if bs == [] {
      NoOverlay(l);
    } else {
      RepeatedBlocksAreLastWins(bs[1..], Apply(bs[0], l));
      OverlayStep(bs, l);
    }
  }

  lemma NoOverlay(l: Link)
    ensures Overlay([], l) == l
  {
  }

  lemma OverlayStep(bs: seq<Block>, l: Link)
    requires bs != []
    ensures Overlay(bs, l) == Overlay(bs[1..], Apply(bs[0], l))
  {
    hide LatestFile, LatestArgc, LatestArgv, LatestPriority, LatestDelay, LatestUid, LatestGid, LatestIo,
      LatestEnviron;
    ListFieldsStep(bs, l, Apply(bs[0], l));
    WordFieldsStep(bs, l, Apply(bs[0], l));
    IdFieldsStep(bs, l, Apply(bs[0], l));
  }

  lemma ListFieldsStep(bs: seq<Block>, l: Link, m: Link)
    requires bs != [] && m == Apply(bs[0], l)
    ensures LatestFile(bs, l) == LatestFile(bs[1..], m)
    ensures LatestArgc(bs, l) == LatestArgc(bs[1..], m)
    ensures LatestArgv(bs, l) == LatestArgv(bs[1..], m)
    ensures LatestEnviron(bs, l) == LatestEnviron(bs[1..], m)
  {
    hide PutEnvs, Strs, Latest;
    LatestStep(bs, MSG_EXEC);
    LatestStep(bs, MSG_ARGS);
    LatestStep(bs, MSG_ENV);
  }

  lemma WordFieldsStep(bs: seq<Block>, l: Link, m: Link)
    requires bs != [] && m == Apply(bs[0], l)
    ensures LatestPriority(bs, l) == LatestPriority(bs[1..], m)
    ensures LatestDelay(bs, l) == LatestDelay(bs[1..], m)
    ensures LatestIo(bs, l) == LatestIo(bs[1..], m)
  {
    hide PutEnvs, Strs, Latest, Unsigned;
    LatestStep(bs, MSG_PRIO);
    LatestStep(bs, MSG_DELAY);
    LatestStep(bs, MSG_IO);
  }

  lemma IdFieldsStep(bs: seq<Block>, l: Link, m: Link)
    requires bs != [] && m == Apply(bs[0], l)
    ensures LatestUid(bs, l) == LatestUid(bs[1..], m)
    ensures LatestGid(bs, l) == LatestGid(bs[1..], m)
  {
    hide PutEnvs, Strs, Latest, Unsigned;
    LatestStep(bs, MSG_IDS);
  }

  lemma LatestStep(bs: seq<Block>, tag: word)
    requires bs != []
    ensures Latest(bs, tag) == if Latest(bs[1..], tag).Some? then Latest(bs[1..], tag)
                               else if Tag(bs[0]) == tag then Some(bs[0]) else None
  {
  }

  /** Two messages made of the same blocks, no two different blocks of one of them having one tag, are
      received alike: a permutation of the blocks changes nothing. */
  lemma OrderIndependence(options: byte, name: CStr, bs: seq<Block>, cs: seq<Block>, dummy: byte, rest: seq<Cell>,
                          environment: map<Text, Text>, pid: word)
    requires SaneStr(name) && SaneBlocks(bs)
    requires forall b :: b in bs <==> b in cs
    requires forall b, c :: b in bs && c in bs && Tag(b) == Tag(c) ==> b == c
    ensures AfterReceive(Accepted(MessageCells(options, name, bs, dummy) + rest, environment), pid).0
         == AfterReceive(Accepted(MessageCells(options, name, cs, dummy) + rest, environment), pid).0
    ensures name != [] && FitsStr(name) && FitBlocks(bs) ==>
              AfterReceive(Accepted(MessageCells(options, name, bs, dummy) + rest, environment), pid)
              == AfterReceive(Accepted(MessageCells(options, name, cs, dummy) + rest, environment), pid)
  {
    hide AfterReceive, MessageCells, PutEnvs, Strs, SaneBlock, FitsBlock, ApplyAll, Latest;
    SameMembers(bs, cs);
    MessageOutcome(options, name, bs, dummy, rest, environment, pid);
    MessageOutcome(options, name, cs, dummy, rest, environment, pid);
    var l := Accepted(rest, environment);
    RepeatedBlocksAreLastWins(bs, l);
    RepeatedBlocksAreLastWins(cs, l);
    forall tag: word ensures Latest(bs, tag) == Latest(cs, tag) {
      SameLatest(bs, cs, tag);
    }
    assert Overlay(bs, l) == Overlay(cs, l);
  }

  lemma SameMembers(bs: seq<Block>, cs: seq<Block>)
    requires forall b :: b in bs <==> b in cs
    ensures SaneBlocks(bs) <==> SaneBlocks(cs)
    ensures FitBlocks(bs) <==> FitBlocks(cs)
  {
    hide SaneBlock, FitsBlock;
    assert SaneBlocks(bs) <==> forall b :: b in bs ==> SaneBlock(b);
    assert SaneBlocks(cs) <==> forall b :: b in cs ==> SaneBlock(b);
    assert FitBlocks(bs) <==> forall b :: b in bs ==> FitsBlock(b);
    assert FitBlocks(cs) <==> forall b :: b in cs ==> FitsBlock(b);
  }

  lemma SameLatest(bs: seq<Block>, cs: seq<Block>, tag: word)
    requires forall b :: b in bs <==> b in cs
    requires forall b, c :: b in bs && c in bs && Tag(b) == Tag(c) ==> b == c
    ensures Latest(bs, tag) == Latest(cs, tag)
  {
    hide Tag;
    LatestIsThere(bs, tag);
    LatestIsThere(cs, tag);
    if Latest(bs, tag).Some? && Latest(cs, tag).Some? {
      assert Latest(bs, tag).value in bs && Latest(cs, tag).value in bs;
    }
  }

  // ---- any stream at all ----

  predicate IsSuffix(tail: seq<Cell>, input: seq<Cell>) {
    |tail| <= |input| && tail == input[|input| - |tail|..]
  }

  lemma SuffixOfSuffix(a: seq<Cell>, b: seq<Cell>, c: seq<Cell>)
    requires IsSuffix(a, b) && IsSuffix(b, c)
    ensures IsSuffix(a, c)
  {
    assert c[|c| - |a|..] == c[|c| - |b|..][|b| - |a|..];
  }

  lemma TakeStrSuffix(input: seq<Cell>)
    ensures IsSuffix(TakeStr(input).1, input)
  {
    SuffixOfSuffix(TakeStr(input).1, TakeWord(input).1, input);
  }

  lemma {:induction false} TakeArgsSuffix(input: seq<Cell>, argv: seq<Arg>, i: nat)
    requires i <= |argv|
    ensures IsSuffix(TakeArgs(input, argv, i).0, input)
    decreases |argv| - i
  {
    hide TakeStr;
    if i < |argv| {
      TakeStrSuffix(input);
      var (s, rest) := TakeStr(input);
      if s.Some? {
        TakeArgsSuffix(rest, argv[i := Str(s.value)], i + 1);
        SuffixOfSuffix(TakeArgs(input, argv, i).0, rest, input);
      }
    }
  }

  lemma {:induction false} TakeEnvSuffix(input: seq<Cell>, environ: map<Text, Text>, n: nat)
    ensures IsSuffix(TakeEnv(input, environ, n).0, input)
    decreases n
  {
    hide TakeStr, PutEnv;
    if n > 0 {
      TakeStrSuffix(input);
      TakeEnvStep(input, environ, n);
      var (s, rest) := TakeStr(input);
      if s.Some? {
        TakeEnvSuffix(rest, PutEnv(environ, s.value), n - 1);
        SuffixOfSuffix(TakeEnv(input, environ, n).0, rest, input);
      }
    }
  }

  lemma ListSuffix(l: Link)
    ensures IsSuffix(AfterArgs(l).input, l.input) && IsSuffix(AfterEnv(l).input, l.input)
  {
    hide TakeArgs, TakeEnv, IsSuffix;
    TakeWordSuffix(l.input);
    var (n, rest) := TakeWord(l.input);
    TakeArgsSuffix(rest, Slots(n), 0);
    TakeEnvSuffix(rest, l.environ, n);
    SuffixOfSuffix(TakeArgs(rest, Slots(n), 0).0, rest, l.input);
    SuffixOfSuffix(TakeEnv(rest, l.environ, n).0, rest, l.input);
  }

  lemma TakeWordSuffix(input: seq<Cell>)
    ensures IsSuffix(TakeWord(input).1, input)
  {
  }

  lemma ActionSuffix(action: word, l: Link)
    ensures IsSuffix(AfterAction(action, l).input, l.input)
  {
    hide TakeWord, TakeStr, AfterArgs, AfterEnv, IsSuffix;
    SuffixOfItself(l.input);
    var rest := TakeWord(l.input).1;
    if action == MSG_EXEC {
      TakeStrSuffix(l.input);
    } else if action == MSG_ARGS {
      ListSuffix(l);
    } else if action == MSG_ENV {
      ListSuffix(l.(environ := map[]));
    } else if action == MSG_IO {
      OneReadSuffix(l.input);
    } else {
      TakeWordSuffix(l.input);
      TakeWordSuffix(rest);
      SuffixOfSuffix(TakeWord(rest).1, rest, l.input);
    }
  }

  lemma SuffixOfItself(input: seq<Cell>)
    ensures IsSuffix(input, input)
  {
  }

  lemma OneReadSuffix(input: seq<Cell>)
    ensures input != [] ==> IsSuffix(input[1..], input)
  {
  }

  /** What was read between two states of a stream ends with the END word. */
  predicate ReadEndLast(before: seq<Cell>, after: seq<Cell>) {
    var n := |before| - |after|;
    n >= 4 && WordOf(Values(before[n - 4..n])) == MSG_END
  }

  lemma ReadEndLastExtends(a: seq<Cell>, b: seq<Cell>, c: seq<Cell>)
    requires IsSuffix(b, a) && IsSuffix(c, b) && ReadEndLast(b, c)
    ensures ReadEndLast(a, c)
  {
    var n, m := |a| - |c|, |b| - |c|;
    assert a[n - 4..n] == b[m - 4..m];
  }

  /** On any stream, truncated or garbage: the receiver stops, it acknowledges exactly when it accepts, and
      what it has consumed when it accepts ends with the END word. */
  lemma {:induction false} AcceptsOnlyAtEnd(l: Link, pid: word)
    ensures var (ok, l') := AfterActions(l, pid);
            && IsSuffix(l'.input, l.input)
            && l'.sendPid == l.sendPid
            && l'.output == (if ok then l.output + AckBytes(l.sendPid, pid) else l.output)
            && (ok ==> ReadEndLast(l.input, l'.input))
    decreases |l.input|
  {
    hide AfterAction, AckBytes, IsSuffix, ReadEndLast, TakeWord;
    var (action, rest) := TakeWord(l.input);
    var l1 := l.(input := rest);
    TakeWordSuffix(l.input);
    if action == MSG_END {
      EndRead(l.input);
    } else if IsAction(action) {
      assert |rest| < |l.input| by { EmptyIsNoAction(l.input); }
      var l2 := AfterAction(action, l1);
      ActionSuffix(action, l1);
      SuffixOfSuffix(l2.input, rest, l.input);
      AcceptsOnlyAtEnd(l2, pid);
      var (ok, l') := AfterActions(l2, pid);
      SuffixOfSuffix(l'.input, l2.input, l.input);
      if ok {
        ReadEndLastExtends(l.input, l2.input, l'.input);
      }
    }
  }

  lemma EndRead(input: seq<Cell>)
    requires TakeWord(input).0 == MSG_END
    ensures ReadEndLast(input, TakeWord(input).1)
  {
    assert input[0..4] == input[..4];
  }

  lemma EmptyIsNoAction(input: seq<Cell>)
    requires IsAction(TakeWord(input).0)
    ensures input != []
  {
  }

  /** An accepted stream, whatever it is, had good options and a name, and ended with END; nothing is sent
      to an invoker whose stream is not accepted. */
  lemma AnyStream(stream: seq<Cell>, environment: map<Text, Text>, pid: word)
    ensures var (data, l) := AfterReceive(Accepted(stream, environment), pid);
            && IsSuffix(l.input, stream)
            && (data.None? ==> l.output == [])
            && (data.Some? ==>
                  && l.output == AckBytes(l.sendPid, pid)
                  && data.value.options < 0x100 && (data.value.options % 2 == 1 <==> l.sendPid)
                  && data.value.appName != []
                  && ReadEndLast(stream, l.input))
  {
    hide AfterActions, AfterMagic, AfterName, AckBytes, IsSuffix, ReadEndLast;
    var l0 := Accepted(stream, environment);
    var (options, l1) := AfterMagic(l0);
    MagicFacts(l0);
    if options != BAD_MAGIC {
      NameSuffix(l1);
      var (name, l2) := AfterName(l1);
      SuffixOfSuffix(l2.input, l1.input, stream);
      if name != [] {
        AcceptsOnlyAtEnd(l2, pid);
        var (ok, l3) := AfterActions(l2, pid);
        SuffixOfSuffix(l3.input, l2.input, stream);
        if ok {
          ReadEndLastExtends(stream, l2.input, l3.input);
        }
      }
    }
  }

  lemma MagicFacts(l: Link)
    ensures var (options, l') := AfterMagic(l);
            && l' == l.(input := l'.input, sendPid := l'.sendPid) && IsSuffix(l'.input, l.input)
            && (options != BAD_MAGIC ==> options < 0x100 && (options % 2 == 1 <==> l'.sendPid))
  {
    hide HighHalf, VersionBits, OptionBits, IsSuffix, TakeWord;
    TakeWordSuffix(l.input);
    OptionFacts(TakeWord(l.input).0);
  }

  lemma NameSuffix(l: Link)
    ensures AfterName(l).1 == l.(input := AfterName(l).1.input)
    ensures IsSuffix(AfterName(l).1.input, l.input)
  {
    hide TakeStr, IsSuffix;
    var rest := TakeWord(l.input).1;
    TakeWordSuffix(l.input);
    TakeStrSuffix(rest);
    SuffixOfSuffix(TakeStr(rest).1, rest, l.input);
  }

  // ---- the arguments of an accepted stream ----

  /** argc counts the slots of argv, and each of them holds a string. */
  predicate WholeArgv(argc: word, argv: seq<Arg>) { argc == |argv| && AllStr(argv) }

  predicate AllStr(argv: seq<Arg>) { forall k :: 0 <= k < |argv| ==> argv[k].Str? }

  /** The connection at each ARGS action read, just after the tag. */
  function ArgsReads(l: Link): seq<Link>
    decreases |l.input|
  {
    var (action, rest) := TakeWord(l.input);
    var l1 := l.(input := rest);
    if action == MSG_END || !IsAction(action) then []
    else (if action == MSG_ARGS then [l1] else []) + ArgsReads(AfterAction(action, l1))
  }

  /** An ARGS action leaves a whole argv if it succeeds, and also if it asks for none when there is none. */
  predicate LeavesWhole(l: Link) { ArgsOk(l) || (TakeWord(l.input).0 == 0 && l.argv == []) }

  lemma {:induction false} SlotsFilled(input: seq<Cell>, argv: seq<Arg>, i: nat)
    requires i <= |argv| && AllStr(argv[..i])
    ensures StrsArrive(input, |argv| - i) <==> AllStr(TakeArgs(input, argv, i).1)
    decreases |argv| - i
  {
    hide TakeStr;
    if i == |argv| {
      assert argv[..i] == argv;
    } else {
      var (s, rest) := TakeStr(input);
      if s.Some? {
        var next := argv[i := Str(s.value)];
        assert next[..i + 1] == argv[..i] + [Str(s.value)];
        SlotsFilled(rest, next, i + 1);
        hide AllStr;
        assert TakeArgs(input, argv, i) == TakeArgs(rest, next, i + 1);
        assert StrsArrive(input, |argv| - i) == StrsArrive(rest, |next| - (i + 1));
      } else {
        assert !argv[i := Null][i].Str?;
      }
    }
  }

  lemma ArgsLeave(l: Link)
    requires |l.argv| < ARG_MAX
    ensures var m := AfterArgs(l); |m.argv| < ARG_MAX && (WholeArgv(m.argc, m.argv) <==> LeavesWhole(l))
  {
    hide TakeWord, TakeArgs, StrsArrive, AllStr;
    var (n, rest) := TakeWord(l.input);
    if 0 < n < ARG_MAX {
      NoSlots(Slots(n));
      SlotsFilled(rest, Slots(n), 0);
    } else {
      NoSlots(l.argv);
    }
  }

  lemma NoSlots(argv: seq<Arg>)
    ensures AllStr(argv[..0]) && (argv == [] <==> |argv| == 0) && (argv == [] ==> AllStr(argv))
  {
  }

  lemma OtherActionsLeaveArgv(action: word, l: Link)
    requires action != MSG_ARGS
    ensures AfterAction(action, l).argc == l.argc && AfterAction(action, l).argv == l.argv
  {
    hide TakeWord, TakeStr, TakeEnv;
  }

  /** The last ARGS action decides. */
  lemma {:induction false} LastArgsDecides(l: Link, pid: word)
    requires |l.argv| < ARG_MAX
    ensures var seen, m := ArgsReads(l), AfterActions(l, pid).1;
            WholeArgv(m.argc, m.argv) <==>
            if seen == [] then WholeArgv(l.argc, l.argv) else LeavesWhole(seen[|seen| - 1])
    decreases |l.input|
  {
    hide AfterAction, TakeWord, LeavesWhole, WholeArgv, AckBytes;
    var (action, rest) := TakeWord(l.input);
    var l1 := l.(input := rest);
    if action != MSG_END && IsAction(action) {
      assert |rest| < |l.input| by { EmptyIsNoAction(l.input); }
      var l2 := AfterAction(action, l1);
      if action == MSG_ARGS {
        ArgsLeave(l1);
        assert l2 == AfterArgs(l1) by { ArgsAction(l1); }
      } else {
        OtherActionsLeaveArgv(action, l1);
      }
      LastArgsDecides(l2, pid);
      LastOf(if action == MSG_ARGS then [l1] else [], ArgsReads(l2));
    }
  }

  lemma ArgsAction(l: Link)
    ensures AfterAction(MSG_ARGS, l) == AfterArgs(l)
  {
  }

  lemma LastOf(a: seq<Link>, b: seq<Link>)
    ensures b != [] ==> (a + b)[|a + b| - 1] == b[|b| - 1]
    ensures b == [] ==> a + b == a
  {
  }

  /** Of any accepted stream: its argc and argv fit together exactly when no ARGS action was read, or the last one
      succeeded, or that one asked for no arguments when none had been received. */
  lemma AcceptedArgv(stream: seq<Cell>, environment: map<Text, Text>, pid: word)
    requires AfterReceive(Accepted(stream, environment), pid).0.Some?
    ensures var data := AfterReceive(Accepted(stream, environment), pid).0.value;
            var seen := ArgsReads(AfterName(AfterMagic(Accepted(stream, environment)).1).1);
            WholeArgv(data.argc, data.argv) <==> seen == [] || LeavesWhole(seen[|seen| - 1])
  {
    hide AfterActions, TakeWord, TakeStr, LeavesWhole;
    LastArgsDecides(AfterName(AfterMagic(Accepted(stream, environment)).1).1, pid);
  }

  /** A stream that is accepted with a count and no arguments at all: receiveActions does not look at what
      receiveArgs returns. */
  lemma BadCountAccepted(options: byte, name: CStr, count: word, environment: map<Text, Text>, pid: word)
    requires name != [] && |name| + 1 <= 65536 && count >= 1024
    ensures var stream := HeaderCells(options, name) + (WordCells(MSG_ARGS) + (WordCells(count) + WordCells(MSG_END)));
            var data := AfterReceive(Accepted(stream, environment), pid).0;
            data.Some? && data.value.argc == count && data.value.argv == []
  {
    hide AfterMagic, AfterName, AfterActions, HeaderCells, WordCells, AfterAction, TakeWord, FitsStr, AckBytes;
    var end := WordCells(MSG_END) + [];
    assert end == WordCells(MSG_END);
    var tail := WordCells(count) + end;
    var l := Accepted(HeaderCells(options, name) + (WordCells(MSG_ARGS) + tail), environment);
    FitsInBytes(name);
    HeaderDecodes(options, name, l, WordCells(MSG_ARGS) + tail);
    var l1 := AfterName(AfterMagic(l).1).1;
    TakeWordCells(MSG_ARGS, tail);
    TakeWordCells(count, end);
    TakeWordCells(MSG_END, []);
    var l2 := l1.(input := tail);
    ArgsAction(l2);
    assert AfterArgs(l2) == l2.(input := end, argc := count);
    TwoActions(l1, l2, pid);
  }

  lemma FitsInBytes(s: CStr)
    requires |s| + 1 <= 65536
    ensures FitsStr(s) && SaneStr(s)
  {
  }

  /** ARGS and then END. */
  lemma TwoActions(l: Link, m: Link, pid: word)
    requires TakeWord(l.input).0 == MSG_ARGS && m == l.(input := TakeWord(l.input).1)
    requires TakeWord(AfterAction(MSG_ARGS, m).input).0 == MSG_END
    ensures AfterActions(l, pid).0
    ensures AfterActions(l, pid).1.argc == AfterAction(MSG_ARGS, m).argc
    ensures AfterActions(l, pid).1.argv == AfterAction(MSG_ARGS, m).argv
  {
    hide AfterAction, TakeWord, AckBytes;
    var n := AfterAction(MSG_ARGS, m);
    assert AfterActions(l, pid) == AfterActions(n, pid);
  }
}
