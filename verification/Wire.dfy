/** A local stream socket: bytes, some of which carry open files (SCM_RIGHTS). */
module Wire {
  import opened Protocol

  /** One byte of the stream and the open files attached to it. */
  datatype Cell = Cell(value: byte, files: seq<int>)

  function Plain(bs: seq<byte>): (cells: seq<Cell>)
    ensures |cells| == |bs|
    ensures forall k :: 0 <= k < |bs| ==> cells[k] == Cell(bs[k], [])
  {
    seq(|bs|, k requires 0 <= k < |bs| => Cell(bs[k], []))
  }

  function Values(cells: seq<Cell>): (bs: seq<byte>)
    ensures |bs| == |cells|
    ensures forall k :: 0 <= k < |bs| ==> bs[k] == cells[k].value
  {
    seq(|cells|, k requires 0 <= k < |cells| => cells[k].value)
  }

  // ---- what the invoker writes ----

  function WordCells(w: word): (cells: seq<Cell>)
    ensures |cells| == 4
  {
    Plain(WordBytes(w))
  }

  /** The size including the NUL is a uint32_t, and that many bytes follow it. */
  function StrCells(s: CStr): seq<Cell> {
    var size := (|s| + 1) % 0x1_0000_0000;
    WordCells(size) + Plain((s + [0])[..size])
  }

  function StrsCells(ss: seq<CStr>): seq<Cell> {
    if ss == [] then [] else StrCells(ss[0]) + StrsCells(ss[1..])
  }

  /** The parts of a request between its name and its end. */
  datatype Block =
    | Exec(file: CStr)
    | Args(args: seq<CStr>)
    | Prio(priority: int32)
    | Delay(delay: int32)
    | Ids(uid: int32, gid: int32)
    | Io(files: seq<int>)
    | Env(entries: seq<CStr>)

  function Tag(b: Block): word {
    match b
    case Exec(_) => MSG_EXEC
    case Args(_) => MSG_ARGS
    case Prio(_) => MSG_PRIO
    case Delay(_) => MSG_DELAY
    case Ids(_, _) => MSG_IDS
    case Io(_) => MSG_IO
    case Env(_) => MSG_ENV
  }

  /** What follows the tag.  `dummy` is the uninitialised byte the descriptors ride on. */
  function Payload(b: Block, dummy: byte): seq<Cell> {
    match b
    case Exec(file) => StrCells(file)
    case Args(args) => WordCells(|args| % 0x1_0000_0000) + StrsCells(args)
    case Prio(priority) => WordCells(Unsigned(priority))
    case Delay(delay) => WordCells(Unsigned(delay))
    case Ids(uid, gid) => WordCells(Unsigned(uid)) + WordCells(Unsigned(gid))
    case Io(files) => [Cell(dummy, files)]
    case Env(entries) => WordCells(|entries| % 0x1_0000_0000) + StrsCells(entries)
  }

  function BlockCells(b: Block, dummy: byte): seq<Cell> {
    WordCells(Tag(b)) + Payload(b, dummy)
  }

  function BlocksCells(bs: seq<Block>, dummy: byte): seq<Cell> {
    if bs == [] then [] else BlockCells(bs[0], dummy) + BlocksCells(bs[1..], dummy)
  }

  function MagicWord(options: byte): word { MAGIC + MAGIC_VERSION + options }

  function HeaderCells(options: byte, name: CStr): seq<Cell> {
    WordCells(MagicWord(options)) + WordCells(MSG_NAME) + StrCells(name)
  }

  /** A launch request with its blocks in any order. */
  function MessageCells(options: byte, name: CStr, blocks: seq<Block>, dummy: byte): seq<Cell> {
    HeaderCells(options, name) + BlocksCells(blocks, dummy) + WordCells(MSG_END)
  }

  /** What invoke_remote is asked to send. */
  datatype Request = Request(options: byte, program: CStr, args: seq<CStr>, priority: int32, delay: int32,
                             uid: int32, gid: int32, files: seq<int>, environ: seq<CStr>)

  /** The blocks in the order in which invoke_remote sends them. */
  function RequestBlocks(r: Request): seq<Block> {
    [Exec(r.program), Args(r.args), Prio(r.priority), Delay(r.delay), Ids(r.uid, r.gid), Io(r.files), Env(r.environ)]
  }

  function RequestCells(r: Request, dummy: byte): seq<Cell> {
    MessageCells(r.options, r.program, RequestBlocks(r), dummy)
  }

  // ---- what a reader takes ----

  /** A four-byte read: a short one gives zero and uses up what there was. */
  function TakeWord(input: seq<Cell>): (r: (word, seq<Cell>))
    ensures |r.1| <= |input|
    ensures input != [] ==> |r.1| < |input|
  {
    if |input| < 4 then (0, []) else (WordOf(Values(input[..4])), input[4..])
  }

  /** The C string at the front of a buffer: its bytes before the first NUL. */
  function CString(bs: seq<byte>): seq<byte>
  {
    if bs == [] || bs[0] == 0 then [] else [bs[0]] + CString(bs[1..])
  }

  lemma {:induction false} CStringOfText(s: CStr)
    ensures CString(s) == s
  {
    if s != [] {
      assert forall k :: 0 <= k < |s[1..]| ==> s[1..][k] == s[k + 1];
      CStringOfText(s[1..]);
    }
  }

  lemma TakeWordCells(w: word, tail: seq<Cell>)
    ensures TakeWord(WordCells(w) + tail) == (w, tail)
  {
    var input := WordCells(w) + tail;
    assert Values(input[..4]) == WordBytes(w);
    WordRoundTrip(w);
  }
}
