/** Limits and layouts of the protocol, in numbers and bytes. */
module WireLimits {
  import opened Protocol
  import opened Wire
  import opened Receiving
  import opened WireTheorems

  /** The words in numbers; no two of them are the same. */
  lemma WordsAreToldApart()
    ensures var ws := [MSG_NAME, MSG_EXEC, MSG_ARGS, MSG_ENV, MSG_PRIO, MSG_DELAY, MSG_IDS, MSG_IO, MSG_END, MSG_PID,
                       MSG_EXIT, MSG_ACK];
            && ws == [0x5a5e0000, 0xe8ec0000, 0xa4650000, 0xe5710000, 0xa1ce0000, 0xb2de0012, 0xb2df4000, 0x10fd0000,
                      0xdead0000, 0x1d1d0000, 0xe4170000, 0x600d0000]
            && forall j, k :: 0 <= j < k < |ws| ==> ws[j] != ws[k]
  {
  }

  lemma MagicLayout(options: byte)
    ensures var w := MagicWord(options); w / 0x10000 == 0xb007 && w / 0x100 % 0x100 == 3 && w % 0x100 == options
  {
  }

  /** The unsigned word of a signed number is congruent to it. */
  lemma TwosComplement(i: int32, w: word)
    ensures Unsigned(i) == i || Unsigned(i) == i + 0x1_0000_0000
    ensures Signed(w) == w || Signed(w) == w - 0x1_0000_0000
    ensures Signed(Unsigned(i)) == i && Unsigned(Signed(w)) == w
  {
  }

  /** A string on the wire: its length with the NUL, its bytes, and the NUL. */
  lemma StringLayout(s: CStr)
    requires |s| + 1 < 0x10fd0000
    ensures Values(StrCells(s)) == WordBytes(|s| + 1) + s + [0]
  {
    StrCellsOf(s);
    assert Values(WordCells(|s| + 1) + Plain(s + [0])) == WordBytes(|s| + 1) + (s + [0]);
  }

  /** What is received of any stream: a size from 1 to 65536 and as many bytes give a string, a stream that ends
      before them is used up, and any other size gives nothing and uses up four bytes. */
  lemma AnyString(input: seq<Cell>)
    requires |input| >= 4
    ensures var size, rest := WordOf(Values(input[..4])), input[4..];
            && (1 <= size <= 65536 && size <= |rest| ==>
                  TakeStr(input) == (Some(CString(Values(rest[..size - 1]))), rest[size..]))
            && (1 <= size <= 65536 && size > |rest| ==> TakeStr(input) == (None, []))
            && (size == 0 || size > 65536 ==> TakeStr(input) == (None, input[4..]))
  {
    hide WordOf, CString;
  }

  lemma ShortString(input: seq<Cell>)
    requires |input| < 4
    ensures TakeStr(input) == (None, [])
  {
  }

  /** What a received string is: the bytes before the first NUL. */
  lemma {:induction false} UpToNul(bs: seq<byte>)
    ensures var s := CString(bs);
            && |s| <= |bs| && bs[..|s|] == s && 0 !in s && (|s| < |bs| ==> bs[|s|] == 0)
  {
    if bs != [] && bs[0] != 0 {
      UpToNul(bs[1..]);
    }
  }

  /** The magic word is refused exactly when its high half is the magic and its version is another; the options are
      its low byte, and the lowest bit of them says whether the invoker waits. */
  lemma MagicRefusedIff(l: Link)
    ensures var (options, l') := AfterMagic(l);
            var w := TakeWord(l.input).0;
            && (options == 0xffff_ffff <==> w / 0x10000 == 0xb007 && w / 0x100 % 0x100 != 3)
            && (options != 0xffff_ffff ==>
                  options == w % 0x100 && l' == l.(input := TakeWord(l.input).1, sendPid := w % 2 == 1))
  {
    hide TakeWord;
    var w := TakeWord(l.input).0;
    OptionFacts(w);
    MagicParts(w);
  }

  lemma MagicParts(w: word)
    ensures HighHalf(w) == MAGIC <==> w / 0x10000 == 0xb007
    ensures VersionBits(w) == MAGIC_VERSION <==> w / 0x100 % 0x100 == 3
    ensures OptionBits(w) == w % 0x100
  {
  }

  /** An accepted stream begins with a magic word that is not refused, the word NAME and a string that is not empty. */
  lemma AcceptedHead(stream: seq<Cell>, environment: map<Text, Text>, pid: word)
    requires AfterReceive(Accepted(stream, environment), pid).0.Some?
    ensures var data := AfterReceive(Accepted(stream, environment), pid).0.value;
            var (magic, r1) := TakeWord(stream);
            var (tag, r2) := TakeWord(r1);
            && !(magic / 0x10000 == 0xb007 && magic / 0x100 % 0x100 != 3) && data.options == magic % 0x100
            && tag == MSG_NAME && TakeStr(r2).0 == Some(data.appName) && data.appName != []
  {
    hide AfterMagic, AfterActions, TakeWord, TakeStr;
    MagicRefusedIff(Accepted(stream, environment));
  }

  /** At the place of an action any word but these eight ends the request; nothing more is read or sent. */
  lemma OtherWordsRefuse(l: Link, pid: word)
    ensures var (action, rest) := TakeWord(l.input);
            action != MSG_EXEC && action != MSG_ARGS && action != MSG_ENV && action != MSG_PRIO && action != MSG_DELAY
            && action != MSG_IDS && action != MSG_IO && action != MSG_END ==>
              AfterActions(l, pid) == (false, l.(input := rest))
  {
    hide TakeWord, AfterAction, AckBytes;
  }

  /** The slots before the j-th hold strings, it is NULL, and the rest are as they were. */
  predicate FailedAt(slots: seq<Arg>, argv: seq<Arg>, i: nat, j: nat) {
    && |slots| == |argv| && i <= j < |argv| && slots[..i] == argv[..i] && slots[j] == Null
    && slots[j + 1..] == argv[j + 1..] && forall k :: i <= k < j ==> slots[k].Str?
  }

  /** When a string of argv fails to arrive. */
  lemma {:induction false} FailedSlots(input: seq<Cell>, argv: seq<Arg>, i: nat)
    requires i <= |argv| && !StrsArrive(input, |argv| - i)
    ensures exists j: nat :: FailedAt(TakeArgs(input, argv, i).1, argv, i, j)
    decreases |argv| - i
  {
    hide TakeStr, FailedAt;
    assert i < |argv|;
    var (s, rest) := TakeStr(input);
    if s.Some? {
      var next := argv[i := Str(s.value)];
      FailedSlots(rest, next, i + 1);
      var slots := TakeArgs(rest, next, i + 1).1;
      assert TakeArgs(input, argv, i).1 == slots;
      var j: nat :| FailedAt(slots, next, i + 1, j);
      OneSlotEarlier(slots, argv, i, j, s.value);
    } else {
      assert TakeArgs(input, argv, i).1 == argv[i := Null];
      FailedHere(argv, i);
    }
  }

  lemma OneSlotEarlier(slots: seq<Arg>, argv: seq<Arg>, i: nat, j: nat, text: Text)
    requires i < |argv| && FailedAt(slots, argv[i := Str(text)], i + 1, j)
    ensures FailedAt(slots, argv, i, j)
  {
    var next := argv[i := Str(text)];
    assert slots[i] == slots[..i + 1][i] == next[i];
    assert slots[..i] == slots[..i + 1][..i] == next[..i + 1][..i] == argv[..i];
    assert next[j + 1..] == argv[j + 1..];
  }

  lemma FailedHere(argv: seq<Arg>, i: nat)
    requires i < |argv|
    ensures FailedAt(argv[i := Null], argv, i, i)
  {
  }

  /** The strings that arrive before one fails, at most n of them. */
  function Arrived(input: seq<Cell>, n: nat): seq<Text>
    decreases n
  {
    if n == 0 || TakeStr(input).0.None? then []
    else [TakeStr(input).0.value] + Arrived(TakeStr(input).1, n - 1)
  }

  function PutAll(environ: map<Text, Text>, entries: seq<Text>): map<Text, Text>
    decreases |entries|
  {
    if entries == [] then environ else PutAll(PutEnv(environ, entries[0]), entries[1..])
  }

  /** Whatever the stream, the entries that arrive are put into the environment, and nothing else happens to it. */
  lemma {:induction false} ArrivedArePut(input: seq<Cell>, environ: map<Text, Text>, n: nat)
    ensures TakeEnv(input, environ, n).1 == PutAll(environ, Arrived(input, n))
    ensures StrsArrive(input, n) <==> |Arrived(input, n)| == n
    decreases n
  {
    hide TakeStr, PutEnv;
    if n > 0 {
      var (s, rest) := TakeStr(input);
      if s.Some? {
        ArrivedArePut(rest, PutEnv(environ, s.value), n - 1);
        assert Arrived(input, n)[1..] == Arrived(rest, n - 1);
      }
    }
  }

  /** An EXEC action whose string does not arrive leaves the file name as it was. */
  lemma BadExecKeepsFile(l: Link)
    ensures AfterAction(MSG_EXEC, l).fileName ==
            if TakeStr(l.input).0.None? then l.fileName else TakeStr(l.input).0.value
  {
    hide TakeStr;
  }

  /** An ENV action empties the environment even if its count is refused. */
  lemma BadEnvCountEmpties(l: Link)
    ensures var n := TakeWord(l.input).0;
            n == 0 || n >= 1024 ==>
              AfterAction(MSG_ENV, l) == l.(input := TakeWord(l.input).1, environ := map[])
  {
    hide TakeWord, TakeEnv;
  }

  /** A request, word for word and block for block. */
  lemma RequestLayout(r: Request, dummy: byte)
    ensures RequestCells(r, dummy) ==
            WordCells(MagicWord(r.options)) + WordCells(MSG_NAME) + StrCells(r.program)
            + (Tagged(MSG_EXEC, StrCells(r.program))
               + (Tagged(MSG_ARGS, WordCells(|r.args| % 0x1_0000_0000) + StrsCells(r.args))
                  + (Tagged(MSG_PRIO, WordCells(Unsigned(r.priority)))
                     + (Tagged(MSG_DELAY, WordCells(Unsigned(r.delay)))
                        + (Tagged(MSG_IDS, WordCells(Unsigned(r.uid)) + WordCells(Unsigned(r.gid)))
                           + (Tagged(MSG_IO, [Cell(dummy, r.files)])
                              + Tagged(MSG_ENV, WordCells(|r.environ| % 0x1_0000_0000) + StrsCells(r.environ))))))))
            + WordCells(MSG_END)
  {
    hide WordCells, StrCells, StrsCells, BlocksCells;
    SevenBlockCells(RequestBlocks(r), dummy);
  }

  lemma SevenBlockCells(bs: seq<Block>, dummy: byte)
    requires |bs| == 7
    ensures BlocksCells(bs, dummy) ==
            BlockCells(bs[0], dummy)
            + (BlockCells(bs[1], dummy)
               + (BlockCells(bs[2], dummy)
                  + (BlockCells(bs[3], dummy)
                     + (BlockCells(bs[4], dummy)
                        + (BlockCells(bs[5], dummy)
                           + BlockCells(bs[6], dummy))))))
  {
    hide BlockCells, BlocksCells;
    NextBlock(bs, 0, dummy);
    NextBlock(bs, 1, dummy);
    NextBlock(bs, 2, dummy);
    NextBlock(bs, 3, dummy);
    NextBlock(bs, 4, dummy);
    NextBlock(bs, 5, dummy);
    NextBlock(bs, 6, dummy);
    LastBlock(BlockCells(bs[6], dummy), dummy);
    assert bs[0..] == bs && bs[7..] == [];
  }

  function Tagged(tag: word, payload: seq<Cell>): seq<Cell> { WordCells(tag) + payload }

  lemma NextBlock(bs: seq<Block>, k: nat, dummy: byte)
    requires k < |bs|
    ensures BlocksCells(bs[k..], dummy) == BlockCells(bs[k], dummy) + BlocksCells(bs[k + 1..], dummy)
  {
    hide BlockCells;
    assert bs[k..][1..] == bs[k + 1..];
  }

  lemma LastBlock(cells: seq<Cell>, dummy: byte)
    ensures cells + BlocksCells([], dummy) == cells
  {
  }
}
