/** The invoker's end of the connection: src/invoker/invoker.cpp and invokelib.cpp. */
module Invoking {
  import opened Protocol
  import opened Wire

  /** How a session with a booster ends for the invoker: it gives up with an error message, it has a status to
      exit with, or the connection was lost with the application's pid known. */
  datatype Outcome = Died | Finished(status: int32) | Lost(pid: word)

  /** invoke_recv_msg: whether a whole word could be read, the word or zero, and what is left. */
  function NextWord(replies: seq<byte>): (bool, word, seq<byte>) {
    if |replies| < 4 then (false, 0, []) else (true, WordOf(replies[..4]), replies[4..])
  }

  /** The outcome of a session in which the bytes `replies` arrive before the connection is closed. */
  function Reading(replies: seq<byte>, waitTerm: bool): Outcome {
    var (_, ack, r1) := NextWord(replies);
    if ack != MSG_ACK then Died
    else if !waitTerm then Finished(0)
    else
      var (_, action, r2) := NextWord(r1);
      if action != MSG_PID then Died
      else
        var (_, pid, r3) := NextWord(r2);
        if pid == 0 then Died else ReadingExit(r3, pid)
  }

  function ReadingExit(replies: seq<byte>, pid: word): Outcome {
    var (ok, exit, rest) := NextWord(replies);
    if !ok || exit != MSG_EXIT then Lost(pid)
    else
      var (ok', status, _) := NextWord(rest);
      if ok' then Finished(Signed(status)) else Lost(pid)
  }

  class Socket {
    var sent: seq<Cell>
    var replies: seq<byte>

    constructor (replies: seq<byte>)
      ensures sent == [] && this.replies == replies
    {
      sent, this.replies := [], replies;
    }

    method SendMsg(msg: word)
      modifies this`sent
      ensures sent == old(sent) + WordCells(msg)
    {
      sent := sent + WordCells(msg);
    }

    method SendStr(str: CStr)
      modifies this`sent
      ensures sent == old(sent) + StrCells(str)
    {
      var size := (|str| + 1) % 0x1_0000_0000;
      SendMsg(size);
      sent := sent + Plain((str + [0])[..size]);
      assert old(sent) + WordCells(size) + Plain((str + [0])[..size]) == old(sent) + StrCells(str);
    }

    method SendMagic(options: byte)
      modifies this`sent
      ensures sent == old(sent) + WordCells(MagicWord(options))
    {
      SendMsg(MAGIC + MAGIC_VERSION + options);
    }

    method SendName(name: CStr)
      modifies this`sent
      ensures sent == old(sent) + (WordCells(MSG_NAME) + StrCells(name))
    {
      hide WordCells, StrCells;
      SendMsg(MSG_NAME);
      SendStr(name);
    }

    method SendExec(file: CStr)
      modifies this`sent
      ensures sent == old(sent) + BlockCells(Exec(file), 0)
    {
      hide WordCells, StrCells;
      SendMsg(MSG_EXEC);
      SendStr(file);
    }

    /** The strings of a counted list, one after the other. */
    method SendStrs(strs: seq<CStr>)
      modifies this`sent
      ensures sent == old(sent) + StrsCells(strs)
    {
      hide StrCells, StrsCells;
      var i := 0;
      assert strs[0..] == strs;
      while i < |strs|
        invariant 0 <= i <= |strs|
        invariant sent + StrsCells(strs[i..]) == old(sent) + StrsCells(strs)
      {
        NextStr(sent, strs, i);
        SendStr(strs[i]);
        i := i + 1;
      }
      NoStrs(sent, strs);
    }

    method SendArgs(args: seq<CStr>)
      modifies this`sent
      ensures sent == old(sent) + BlockCells(Args(args), 0)
    {
      hide WordCells, StrsCells;
      SendMsg(MSG_ARGS);
      SendMsg(|args| % 0x1_0000_0000);
      SendStrs(args);
    }

    method SendPrio(prio: int32)
      modifies this`sent
      ensures sent == old(sent) + BlockCells(Prio(prio), 0)
    {
      SendMsg(MSG_PRIO);
      SendMsg(Unsigned(prio));
    }

    method SendDelay(delay: int32)
      modifies this`sent
      ensures sent == old(sent) + BlockCells(Delay(delay), 0)
    {
      SendMsg(MSG_DELAY);
      SendMsg(Unsigned(delay));
    }

    method SendIds(uid: int32, gid: int32)
      modifies this`sent
      ensures sent == old(sent) + BlockCells(Ids(uid, gid), 0)
    {
      SendMsg(MSG_IDS);
      SendMsg(Unsigned(uid));
      SendMsg(Unsigned(gid));
    }

    /** sendmsg of one byte, whatever it is, with the descriptors. */
    method SendIo(files: seq<int>, dummy: byte)
      modifies this`sent
      ensures sent == old(sent) + BlockCells(Io(files), dummy)
    {
      SendMsg(MSG_IO);
      sent := sent + [Cell(dummy, files)];
    }

    method SendEnv(environ: seq<CStr>)
      modifies this`sent
      ensures sent == old(sent) + BlockCells(Env(environ), 0)
    {
      hide WordCells, StrsCells;
      SendMsg(MSG_ENV);
      SendMsg(|environ| % 0x1_0000_0000);
      SendStrs(environ);
    }

    method RecvMsg() returns (ok: bool, msg: word)
      modifies this`replies
      ensures (ok, msg, replies) == NextWord(old(replies))
      ensures |old(replies)| < 4 ==> !ok && msg == 0 && replies == []
    {
      var got := if |replies| < 4 then |replies| else 4;
      var buf := replies[..got];
      replies := replies[got..];
      if got < 4 {
        assert replies == [];
        return false, 0;
      }
      return true, WordOf(buf);
    }

    /** invoker_recv_exit, after the pid has been received. */
    method RecvExit(pid: word) returns (o: Outcome)
      modifies this`replies
      ensures o == ReadingExit(old(replies), pid)
    {
      var ok, action := RecvMsg();
      if !ok || action != MSG_EXIT {
        return Lost(pid);
      }
      var status: word;
      ok, status := RecvMsg();
      return if ok then Finished(Signed(status)) else Lost(pid);
    }

    method WaitForLaunchedProcessToExit(waitTerm: bool) returns (o: Outcome)
      modifies this`replies
      ensures !waitTerm ==> o == Finished(0) && replies == old(replies)
      ensures waitTerm ==>
                var (_, action, r2) := NextWord(old(replies));
                var (_, pid, r3) := NextWord(r2);
                o == if action != MSG_PID || pid == 0 then Died else ReadingExit(r3, pid)
    {
      if !waitTerm {
        return Finished(0);
      }
      var ok, action := RecvMsg();
      if action != MSG_PID {
        return Died;
      }
      var pid: word;
      ok, pid := RecvMsg();
      if pid == 0 {
        return Died;
      }
      o := RecvExit(pid);
    }

    method InvokeRemote(r: Request, dummy: byte, waitTerm: bool) returns (o: Outcome)
      modifies this
      ensures sent == old(sent) + RequestCells(r, dummy)
      ensures o == Reading(old(replies), waitTerm)
    {
      SendRequest(r, dummy);
      var ok, ack := RecvMsg();
      if ack != MSG_ACK {
        return Died;
      }
      o := WaitForLaunchedProcessToExit(waitTerm);
    }

    method SendRequest(r: Request, dummy: byte)
      modifies this`sent
      ensures sent == old(sent) + RequestCells(r, dummy)
    {
      hide BlockCells, BlocksCells, WordCells, StrCells;
      ghost var base := old(sent) + HeaderCells(r.options, r.program);
      SendMagic(r.options);
      SendName(r.program);
      assert sent == base + BlocksCells([], dummy) by { NoBlocks(base, dummy); }
      SendExec(r.program);
      ghost var bs := OneMore(base, [], Exec(r.program), dummy);
      SendArgs(r.args);
      bs := OneMore(base, bs, Args(r.args), dummy);
      SendPrio(r.priority);
      bs := OneMore(base, bs, Prio(r.priority), dummy);
      SendDelay(r.delay);
      bs := OneMore(base, bs, Delay(r.delay), dummy);
      SendIds(r.uid, r.gid);
      bs := OneMore(base, bs, Ids(r.uid, r.gid), dummy);
      SendIo(r.files, dummy);
      bs := OneMore(base, bs, Io(r.files), dummy);
      SendEnv(r.environ);
      bs := OneMore(base, bs, Env(r.environ), dummy);
      SendMsg(MSG_END);
      assert bs == RequestBlocks(r);
      Framed(old(sent), HeaderCells(r.options, r.program), BlocksCells(bs, dummy), WordCells(MSG_END));
    }
  }

  lemma NextStr(sent: seq<Cell>, strs: seq<CStr>, i: nat)
    requires i < |strs|
    ensures sent + StrsCells(strs[i..]) == sent + StrCells(strs[i]) + StrsCells(strs[i + 1..])
  {
    hide StrCells;
    assert strs[i..][1..] == strs[i + 1..];
    Regrouped(sent, StrCells(strs[i]), StrsCells(strs[i + 1..]));
  }

  lemma NoStrs(sent: seq<Cell>, strs: seq<CStr>)
    ensures sent + StrsCells(strs[|strs|..]) == sent
  {
    assert strs[|strs|..] == [];
  }

  lemma Regrouped(a: seq<Cell>, b: seq<Cell>, c: seq<Cell>)
    ensures a + b + c == a + (b + c)
  {
  }

  lemma NoBlocks(base: seq<Cell>, dummy: byte)
    ensures base + BlocksCells([], dummy) == base
  {
  }

  lemma Framed(a: seq<Cell>, b: seq<Cell>, c: seq<Cell>, d: seq<Cell>)
    ensures a + b + c + d == a + (b + c + d)
  {
  }

  lemma {:induction false} BlocksAppend(bs: seq<Block>, b: Block, dummy: byte)
    ensures BlocksCells(bs + [b], dummy) == BlocksCells(bs, dummy) + BlockCells(b, dummy)
  {
    hide BlockCells;
    if bs == [] {
      assert BlocksCells([b][1..], dummy) == [];
      assert [] + [b] == [b];
    } else {
      assert (bs + [b])[1..] == bs[1..] + [b];
      BlocksAppend(bs[1..], b, dummy);
    }
  }

  /** A block sent after others.  Only the one with the descriptors depends on the byte they ride on. */
  lemma OneMore(base: seq<Cell>, bs: seq<Block>, b: Block, dummy: byte) returns (bs': seq<Block>)
    ensures bs' == bs + [b]
    ensures base + BlocksCells(bs, dummy) + BlockCells(b, if b.Io? then dummy else 0) == base + BlocksCells(bs', dummy)
  {
    hide BlockCells, BlocksCells;
    bs' := bs + [b];
    BlocksAppend(bs, b, dummy);
    SameWithoutFiles(b, dummy);
    Regrouped(base, BlocksCells(bs, dummy), BlockCells(b, dummy));
  }

  lemma SameWithoutFiles(b: Block, dummy: byte)
    ensures BlockCells(b, if b.Io? then dummy else 0) == BlockCells(b, dummy)
  {
    hide WordCells, StrCells, StrsCells;
  }

  // ---- the options on the command line ----

  datatype CommandLine = Usage(status: int) | Options(magic: bv8, waitTerm: bool)

  /** What a list of options asks for, whatever their order and however often they are repeated. */
  function Asked(opts: seq<char>): bv8 {
    (if 'n' in opts then 0 else OPTION_WAIT) | (if 'G' in opts then OPTION_DLOPEN_GLOBAL else 0) |
    (if 'D' in opts then OPTION_DLOPEN_DEEP else 0) | (if 's' in opts then OPTION_SINGLE_INSTANCE else 0) |
    (if 'o' in opts then OPTION_OOM_ADJ_DISABLE else 0)
  }

  /** What one option makes of the bits. */
  function With(magic: bv8, opt: char): bv8 {
    match opt
    case 'o' => magic | OPTION_OOM_ADJ_DISABLE
    case 'n' => magic & !OPTION_WAIT
    case 'G' => magic | OPTION_DLOPEN_GLOBAL
    case 'D' => magic | OPTION_DLOPEN_DEEP
    case 's' => magic | OPTION_SINGLE_INSTANCE
    case _ => magic
  }

  /** The option loop of main.  The WAIT bit of the request and the invoker's own waiting always agree. */
  method ParseOptions(opts: seq<char>) returns (line: CommandLine)
    ensures line.Usage? <==> 'h' in opts || '?' in opts
    ensures line.Usage? ==>
              exists k :: && 0 <= k < |opts| && 'h' !in opts[..k] && '?' !in opts[..k]
                          && ((opts[k] == 'h' && line.status == 0) || (opts[k] == '?' && line.status == 1))
    ensures line.Options? ==> line.magic == Asked(opts)
    ensures line.Options? ==> (line.waitTerm <==> 'n' !in opts) && (line.magic & OPTION_WAIT != 0 <==> line.waitTerm)
  {
    hide Asked, With;
    var magic, waitTerm := OPTION_WAIT, true;
    NothingAsked();
    var i := 0;
    while i < |opts|
      invariant 0 <= i <= |opts|
      invariant 'h' !in opts[..i] && '?' !in opts[..i]
      invariant waitTerm <==> 'n' !in opts[..i]
      invariant magic == Asked(opts[..i])
    {
      AskedStep(opts[..i], opts[i]);
      assert opts[..i + 1] == opts[..i] + [opts[i]];
      if opts[i] == 'h' {
        return Usage(0);
      }
      if opts[i] == '?' {
        return Usage(1);
      }
      magic, waitTerm := TakeOption(magic, waitTerm, opts[i]);
      i := i + 1;
    }
    assert opts[..i] == opts;
    WaitBit(opts);
    line := Options(magic, waitTerm);
  }

  /** The cases of the switch that go on. */
  method TakeOption(magic: bv8, waitTerm: bool, opt: char) returns (magic': bv8, waitTerm': bool)
    ensures magic' == With(magic, opt) && waitTerm' == (waitTerm && opt != 'n')
  {
    magic', waitTerm' := magic, waitTerm;
    match opt {
      case 'o' => magic' := magic | OPTION_OOM_ADJ_DISABLE;
      case 'n' => waitTerm', magic' := false, magic & !OPTION_WAIT;
      case 'G' => magic' := magic | OPTION_DLOPEN_GLOBAL;
      case 'D' => magic' := magic | OPTION_DLOPEN_DEEP;
      case 's' => magic' := magic | OPTION_SINGLE_INSTANCE;
      case _ =>
    }
  }

  lemma NothingAsked()
    ensures Asked([]) == OPTION_WAIT
  {
  }

  lemma AskedStep(opts: seq<char>, opt: char)
    ensures Asked(opts + [opt]) == With(Asked(opts), opt)
  {
    var all := opts + [opt];
    assert forall c :: c in all <==> c in opts || c == opt;
  }

  /** Each option sets its own bit and no other option does. */
  lemma OptionsSetTheirBits(opts: seq<char>)
    ensures Asked(opts) & 0x01 != 0 <==> 'n' !in opts
    ensures Asked(opts) & 0x02 != 0 <==> 'G' in opts
    ensures Asked(opts) & 0x04 != 0 <==> 'D' in opts
    ensures Asked(opts) & 0x08 != 0 <==> 's' in opts
    ensures Asked(opts) & 0x20 != 0 <==> 'o' in opts
    ensures Asked(opts) & 0xd0 == 0
  {
  }

  /** The bit, and the byte of the request it is sent in. */
  lemma WaitBit(opts: seq<char>)
    ensures Asked(opts) & OPTION_WAIT != 0 <==> 'n' !in opts
    ensures Asked(opts) as int % 2 == 1 <==> 'n' !in opts
  {
  }
}

/** The three ends of a session together. */
module Session {
  import opened Protocol
  import opened Invoking
  import opened World
  import opened WorldInvariant
  import opened WorldTheorems
  import Receiving

  function BytesOf(ws: seq<word>): seq<byte> {
    if ws == [] then [] else WordBytes(ws[0]) + BytesOf(ws[1..])
  }

  lemma NextWordOf(ws: seq<word>)
    ensures ws == [] ==> NextWord(BytesOf(ws)) == (false, 0, [])
    ensures ws != [] ==> NextWord(BytesOf(ws)) == (true, ws[0], BytesOf(ws[1..]))
  {
    if ws != [] {
      assert BytesOf(ws)[..4] == WordBytes(ws[0]);
      WordRoundTrip(ws[0]);
    }
  }

  /** The words the booster acknowledges with are what receiveActions sends. */
  lemma GreetingsAreAcknowledgement(c: Conn)
    ensures BytesOf(Greetings(c)) == Receiving.AckBytes(c.wait, c.pid)
  {
    var g := Greetings(c);
    if c.wait {
      assert g[1..][1..] == [c.pid] && g[1..][1..][1..] == [];
      assert BytesOf([c.pid]) == WordBytes(c.pid);
    } else {
      assert g[1..] == [];
    }
  }

  /** The outcome of a session in terms of words. */
  function ReadingWords(ws: seq<word>, waitTerm: bool): Outcome {
    if ws == [] || ws[0] != MSG_ACK then Died
    else if !waitTerm then Finished(0)
    else if |ws| < 3 || ws[1] != MSG_PID || ws[2] == 0 then Died
    else if |ws| < 5 || ws[3] != MSG_EXIT then Lost(ws[2])
    else Finished(Signed(ws[4]))
  }

  lemma ReadingOfWords(ws: seq<word>, waitTerm: bool)
    ensures Reading(BytesOf(ws), waitTerm) == ReadingWords(ws, waitTerm)
  {
    hide BytesOf, NextWord, ReadingExit;
    NextWordOf(ws);
    if ws != [] {
      var ws1 := ws[1..];
      NextWordOf(ws1);
      if ws1 != [] {
        var ws2 := ws1[1..];
        NextWordOf(ws2);
        assert ws1[0] == ws[1];
        if ws2 != [] {
          assert ws2[0] == ws[2];
          ExitOfWords(ws2[1..], ws[2]);
          assert |ws| > 3 ==> ws2[1..][0] == ws[3];
          assert |ws| > 4 ==> ws2[1..][1] == ws[4];
        }
      }
    }
  }

  lemma ExitOfWords(ws: seq<word>, pid: word)
    ensures ReadingExit(BytesOf(ws), pid) ==
            if |ws| < 2 || ws[0] != MSG_EXIT then Lost(pid) else Finished(Signed(ws[1]))
  {
    hide BytesOf, NextWord;
    NextWordOf(ws);
    if ws != [] {
      NextWordOf(ws[1..]);
    }
  }

  /** What an invoker makes of a reply that stops after n words. */
  lemma ReadingWhole(pid: word, code: word, n: nat)
    requires pid != 0 && n <= 5
    ensures Reading(BytesOf(WholeReply(pid, code)[..n]), true) ==
            if n < 3 then Died else if n < 5 then Lost(pid) else Finished(Signed(code))
    ensures Reading(BytesOf(WholeReply(pid, code)[..n]), false) == if n < 1 then Died else Finished(0)
  {
    hide Reading, BytesOf;
    ReadingOfWords(WholeReply(pid, code)[..n], true);
    ReadingOfWords(WholeReply(pid, code)[..n], false);
  }

  /** In every state of every run, an invoker that reads what it has been sent up to the end of the stream gives
      up exactly when its booster has not finished acknowledging; a waiting invoker learns the pid of its
      booster before anything else, and once the whole reply is there it exits with the status in it. */
  lemma InvokerUnderstands(ws: seq<World>, es: seq<Event>, k: nat, n: nat)
    requires IsRun(ws, es) && k <= |es| && n < |ws[k].conns|
    ensures var c := ws[k].conns[n];
            var o := Reading(BytesOf(c.reply), c.wait);
            && |c.reply| <= (if c.wait then 5 else 1)
            && (o == Died <==> |c.reply| < |Greetings(c)|)
            && (c.wait && 3 <= |c.reply| < 5 ==> o == Lost(c.pid))
            && (c.wait && |c.reply| == 5 ==> o == Finished(Signed(c.reply[4])))
  {
    ReplyShape(ws, es, k, n);
    var c := ws[k].conns[n];
    assert c.pid != 0 by {
      RunsKeepInvariant(ws, es, k);
      assert ConnOk(c);
    }
    if c.wait {
      var code :| c.reply <= WholeReply(c.pid, code);
      assert c.reply == WholeReply(c.pid, code)[..|c.reply|];
      ReadingWhole(c.pid, code, |c.reply|);
    } else {
      assert c.reply == WholeReply(c.pid, 0)[..|c.reply|];
      ReadingWhole(c.pid, 0, |c.reply|);
    }
  }
}
