/** Words of the invoker-booster protocol, and how a word and a string lie in a byte stream. */
module Protocol {

  type byte = b: int | 0 <= b < 0x100
  type word = w: int | 0 <= w < 0x1_0000_0000
  type int32 = i: int | -0x8000_0000 <= i < 0x8000_0000

  /** A C string: the bytes before the terminating NUL. */
  type CStr = s: seq<byte> | 0 !in s

  datatype Option<+T> = None | Some(value: T)

  const MAGIC: word := 0xb0070000
  const MAGIC_VERSION: word := 0x00000300

  /** The options are bits of the low byte of the magic word. */
  const OPTION_WAIT: bv8 := 0x01
  const OPTION_DLOPEN_GLOBAL: bv8 := 0x02
  const OPTION_DLOPEN_DEEP: bv8 := 0x04
  const OPTION_SINGLE_INSTANCE: bv8 := 0x08
  const OPTION_OOM_ADJ_DISABLE: bv8 := 0x20

  const MSG_NAME: word := 0x5a5e0000
  const MSG_EXEC: word := 0xe8ec0000
  const MSG_ARGS: word := 0xa4650000
  const MSG_ENV: word := 0xe5710000
  const MSG_PRIO: word := 0xa1ce0000
  const MSG_DELAY: word := 0xb2de0012
  const MSG_IDS: word := 0xb2df4000
  const MSG_IO: word := 0x10fd0000
  const MSG_END: word := 0xdead0000
  const MSG_PID: word := 0x1d1d0000
  const MSG_EXIT: word := 0xe4170000
  const MSG_ACK: word := 0x600d0000

  /** The words that receiveActions carries on after, or stops at with success. */
  predicate IsAction(w: word) {
    w in {MSG_EXEC, MSG_ARGS, MSG_ENV, MSG_PRIO, MSG_DELAY, MSG_IDS, MSG_IO, MSG_END}
  }

  /** The masks of protocol.h, on an unsigned 32-bit word. */
  function HighHalf(w: word): word { w / 0x10000 * 0x10000 }
  function VersionBits(w: word): word { w / 0x100 % 0x100 * 0x100 }
  function OptionBits(w: word): word { w % 0x100 }

  /** A conversion of a C int to uint32_t, and back. */
  function Unsigned(i: int32): word { if i < 0 then i + 0x1_0000_0000 else i }
  function Signed(w: word): int32 { if w >= 0x8000_0000 then w - 0x1_0000_0000 else w }

  /** The four bytes of a word, in the order both ends of a local socket use. */
  function WordBytes(w: word): (bs: seq<byte>)
    ensures |bs| == 4
  {
    [w % 0x100, w / 0x100 % 0x100, w / 0x10000 % 0x100, w / 0x1000000]
  }

  function WordOf(bs: seq<byte>): word
    requires |bs| == 4
  {
    bs[0] as int + 0x100 * bs[1] as int + 0x10000 * bs[2] as int + 0x1000000 * bs[3] as int
  }

  lemma WordRoundTrip(w: word)
    ensures WordOf(WordBytes(w)) == w
  {
    var a, b := w / 0x100, w / 0x10000;
    assert a / 0x100 == b && b / 0x100 == w / 0x1000000;
  }

  /** Every action word has a NUL among its first two bytes, so no four bytes of string data are one. */
  lemma StringDataIsNoAction(bs: seq<byte>)
    requires |bs| == 4 && 0 !in bs
    ensures !IsAction(WordOf(bs))
  {
    var w := WordOf(bs);
    LowBytes(bs);
    assert bs[0] in bs && bs[1] in bs;
    if IsAction(w) {
      ActionsHaveNul(w);
    }
  }

  lemma LowBytes(bs: seq<byte>)
    requires |bs| == 4
    ensures WordOf(bs) % 0x100 == bs[0] && WordOf(bs) / 0x100 % 0x100 == bs[1]
  {
    var high := bs[2] as int + 0x100 * bs[3] as int;
    LowByte(bs[1] as int + 0x100 * high, bs[0]);
    LowByte(high, bs[1]);
  }

  lemma LowByte(rest: int, low: byte)
    ensures (low as int + 0x100 * rest) % 0x100 == low && (low as int + 0x100 * rest) / 0x100 == rest
  {
  }

  lemma ActionsHaveNul(w: word)
    requires IsAction(w)
    ensures w % 0x100 == 0 || w / 0x100 % 0x100 == 0
  {
    assert MSG_EXEC % 0x100 == 0 && MSG_ARGS % 0x100 == 0 && MSG_ENV % 0x100 == 0 && MSG_PRIO % 0x100 == 0;
    assert MSG_IDS % 0x100 == 0 && MSG_IO % 0x100 == 0 && MSG_END % 0x100 == 0 && MSG_DELAY / 0x100 % 0x100 == 0;
  }

  lemma OptionFacts(w: word)
    ensures OptionBits(w) < 0x100 && OptionBits(w) % 2 == w % 2
  {
    var high := w / 0x100;
    assert w == 2 * (0x80 * high) + w % 0x100;
  }
}
