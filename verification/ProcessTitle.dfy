/** Renaming a process by overwriting its argument block: Booster::renameProcess, src/launcherlib/booster.cpp. */
module ProcessTitle {
  import opened Protocol
  import opened Wire

  /** The strings one after the other, each with its NUL. */
  function Joined(ss: seq<CStr>): seq<byte> {
    if ss == [] then [] else ss[0] + [0] + Joined(ss[1..])
  }

  /** What ps and killall make of a block: the first n strings in it. */
  function Split(block: seq<byte>, n: nat): (ss: seq<CStr>)
    ensures |ss| == n
    decreases n
  {
    if n == 0 then []
    else
      CStringLength(block);
      var s: CStr := CString(block);
      [s] + Split(AfterFirst(block, s), n - 1)
  }

  function Zeros(n: nat): (z: seq<byte>)
    ensures |z| == n && forall i :: 0 <= i < n ==> z[i] == 0
  {
    seq(n, _ => 0)
  }

  /** A block of `space` bytes that shows as much of the text as fits, ends with NUL and is zero elsewhere. */
  function Shown(text: seq<byte>, space: nat): (block: seq<byte>)
    requires text != [] && space > 0
    ensures |block| == space
  {
    var n := if space < |text| then space else |text|;
    text[..n - 1] + [0] + Zeros(space - n)
  }

  lemma {:induction false} CStringLength(bs: seq<byte>)
    ensures |CString(bs)| <= |bs|
    ensures CString(bs) == bs[..|CString(bs)|] && 0 !in CString(bs)
    ensures |CString(bs)| < |bs| ==> bs[|CString(bs)|] == 0
  {
    if bs != [] && bs[0] != 0 {
      CStringLength(bs[1..]);
    }
  }

  /** Where the strings of a block begin. */
  function Offsets(ss: seq<CStr>): (offsets: seq<nat>)
    ensures |offsets| == |ss|
  {
    seq(|ss|, i requires 0 <= i < |ss| => |Joined(ss[..i])|)
  }

  /** What the strlen loop adds up from the i-th pointer on. */
  function SpaceFrom(block: seq<byte>, offsets: seq<nat>, i: nat): nat
    requires i <= |offsets| && forall k :: 0 <= k < |offsets| ==> offsets[k] < |block|
    decreases |offsets| - i
  {
    if i == |offsets| then 0 else |CString(block[offsets[i]..])| + 1 + SpaceFrom(block, offsets, i + 1)
  }

  /** The cached size and the block, as a sequence of calls sees them. */
  datatype Title = Title(space: nat, block: seq<byte>)

  predicate Usable(t: Title, offsets: seq<nat>) {
    && offsets != [] && (forall k :: 0 <= k < |offsets| ==> offsets[k] < |t.block|)
    && Space(t, offsets) <= |t.block|
  }

  function Space(t: Title, offsets: seq<nat>): nat
    requires offsets != [] && forall k :: 0 <= k < |offsets| ==> offsets[k] < |t.block|
    ensures Space(t, offsets) > 0
  {
    if t.space != 0 then t.space else SpaceFrom(t.block, offsets, 0)
  }

  function Renamed(t: Title, offsets: seq<nat>, source: seq<CStr>): (t': Title)
    requires Usable(t, offsets)
    ensures |t'.block| == |t.block|
  {
    if source == [] then t
    else
      var space := Space(t, offsets);
      Title(space, Shown(Joined(source), space) + t.block[space..])
  }

  /** A booster that renames its process; the block of arguments is the part of memory from `start` to `end`. */
  class Renamer {
    var spaceAvailable: nat

    constructor ()
      ensures spaceAvailable == 0
    {
      spaceAvailable := 0;
    }

    method StrLen(mem: array<byte>, at: nat, end: nat) returns (n: nat)
      requires at < end <= mem.Length && 0 in mem[at..end]
      ensures at + n < end && n == |CString(mem[at..end])|
    {
      hide CString;
      ghost var text := mem[at..end];
      ghost var k :| 0 <= k < |text| && text[k] == 0;
      n := 0;
      while mem[at + n] != 0
        invariant n <= k
        invariant forall j :: 0 <= j < n ==> text[j] != 0
        decreases k - n
      {
        assert text[n] == mem[at + n];
        n := n + 1;
      }
      assert text[n] == mem[at + n];
      TextUpToNul(text, n);
    }

    method RenameProcess(mem: array<byte>, start: nat, end: nat, parentArgv: seq<nat>, source: seq<CStr>)
      requires start < end <= mem.Length && mem[end - 1] == 0
      requires parentArgv != [] ==> parentArgv[0] == 0
      requires parentArgv != [] ==> Usable(Title(spaceAvailable, mem[start..end]), parentArgv)
      modifies this, mem
      ensures parentArgv != [] ==> Title(spaceAvailable, mem[start..end]) ==
                                   old(Renamed(Title(spaceAvailable, mem[start..end]), parentArgv, source))
      ensures parentArgv == [] || source == [] ==> spaceAvailable == old(spaceAvailable) && mem[..] == old(mem[..])
      ensures mem[..start] == old(mem[..start]) && mem[end..] == old(mem[end..])
    {
      if source == [] || parentArgv == [] {
        return;
      }
      hide Shown, Joined, SpaceFrom, Renamed, Usable;
      ghost var before, cached := mem[..], spaceAvailable;
      assert mem[start..end] == before[start..end];
      UsableFits(Title(cached, before[start..end]), parentArgv);
      if spaceAvailable == 0 {
        spaceAvailable := AddUp(mem, start, end, parentArgv);
      }
      Overwrite(mem, start, source);
      ghost var after := mem[..];
      RenamedRegion(before, after, start, end, cached, parentArgv, source, spaceAvailable);
      assert mem[..start] == after[..start] && mem[start..end] == after[start..end] && mem[end..] == after[end..];
    }

    method AddUp(mem: array<byte>, start: nat, end: nat, parentArgv: seq<nat>) returns (total: nat)
      requires start < end <= mem.Length && mem[end - 1] == 0
      requires forall k :: 0 <= k < |parentArgv| ==> parentArgv[k] < end - start
      ensures total == SpaceFrom(mem[start..end], parentArgv, 0)
    {
      hide CString;
      total := 0;
      var i := 0;
      ghost var block := mem[start..end];
      while i < |parentArgv|
        invariant 0 <= i <= |parentArgv|
        invariant total + SpaceFrom(block, parentArgv, i) == SpaceFrom(block, parentArgv, 0)
      {
        ghost var rest := block[parentArgv[i]..];
        assert mem[start + parentArgv[i]..end] == rest && rest[|rest| - 1] == 0;
        var n := StrLen(mem, start + parentArgv[i], end);
        total := total + n + 1;
        i := i + 1;
      }
    }

    method Join(source: seq<CStr>) returns (newArgv: seq<byte>)
      ensures newArgv == Joined(source)
      ensures source != [] ==> newArgv != []
    {
      newArgv := [];
      var i := 0;
      while i < |source|
        invariant 0 <= i <= |source| && newArgv == Joined(source[..i])
      {
        JoinedStep(source, i);
        newArgv := newArgv + source[i] + [0];
        i := i + 1;
      }
      assert source[..i] == source;
    }

    /** memset, memcpy of what fits, and a NUL at the end of it. */
    method Overwrite(mem: array<byte>, start: nat, source: seq<CStr>)
      requires source != [] && 0 < spaceAvailable && start + spaceAvailable <= mem.Length
      modifies mem
      ensures Joined(source) != []
      ensures mem[..] == old(mem[..start]) + Shown(Joined(source), spaceAvailable) + old(mem[start + spaceAvailable..])
    {
      hide Joined;
      var newArgv := Join(source);
      var spaceNeeded := if spaceAvailable < |newArgv| then spaceAvailable else |newArgv|;
      Memcpy(mem, start, Zeros(spaceAvailable));
      Memcpy(mem, start, newArgv[..spaceNeeded]);
      mem[start + spaceNeeded - 1] := 0;
      ghost var shown := Shown(newArgv, spaceAvailable);
      ghost var after := old(mem[..start]) + shown + old(mem[start + spaceAvailable..]);
      forall k | 0 <= k < mem.Length
        ensures mem[k] == after[k]
      {
        assert start <= k < start + spaceAvailable ==> after[k] == shown[k - start];
      }
      assert mem[..] == after;
    }

    method Memcpy(mem: array<byte>, at: nat, bytes: seq<byte>)
      requires at + |bytes| <= mem.Length
      modifies mem
      ensures forall k :: 0 <= k < at ==> mem[k] == old(mem[k])
      ensures forall k :: at <= k < at + |bytes| ==> mem[k] == bytes[k - at]
      ensures forall k :: at + |bytes| <= k < mem.Length ==> mem[k] == old(mem[k])
    {
      forall k | at <= k < at + |bytes| {
        mem[k] := bytes[k - at];
      }
    }
  }

  lemma UsableFits(t: Title, offsets: seq<nat>)
    requires Usable(t, offsets)
    ensures offsets != [] && (forall k :: 0 <= k < |offsets| ==> offsets[k] < |t.block|)
    ensures Space(t, offsets) <= |t.block|
  {
  }

  /** Memory in which the stretch that belongs to the arguments is overwritten. */
  lemma RenamedRegion(before: seq<byte>, after: seq<byte>, start: nat, end: nat, cached: nat, offsets: seq<nat>,
                      source: seq<CStr>, space: nat)
    requires start < end <= |before| && source != [] && Joined(source) != []
    requires Usable(Title(cached, before[start..end]), offsets)
    requires space == Space(Title(cached, before[start..end]), offsets)
    requires after == before[..start] + Shown(Joined(source), space) + before[start + space..]
    ensures Title(space, after[start..end]) == Renamed(Title(cached, before[start..end]), offsets, source)
    ensures after[..start] == before[..start] && after[end..] == before[end..]
  {
    hide Shown, Joined, SpaceFrom;
    Region(before, start, end, Shown(Joined(source), space));
  }

  /** The parts of a sequence of which one stretch is replaced. */
  lemma Region(m: seq<byte>, start: nat, end: nat, shown: seq<byte>)
    requires start + |shown| <= end <= |m|
    ensures var m' := m[..start] + shown + m[start + |shown|..];
            && |m'| == |m| && m'[..start] == m[..start] && m'[end..] == m[end..]
            && m'[start..end] == shown + m[start..end][|shown|..]
  {
  }

  lemma {:induction false} TextUpToNul(bs: seq<byte>, n: nat)
    requires n < |bs| && bs[n] == 0 && forall j :: 0 <= j < n ==> bs[j] != 0
    ensures CString(bs) == bs[..n]
  {
    if n > 0 {
      TextUpToNul(bs[1..], n - 1);
      assert bs[..n] == [bs[0]] + bs[1..][..n - 1];
    }
  }

  lemma {:induction false} JoinedAppend(ss: seq<CStr>, ts: seq<CStr>)
    ensures Joined(ss + ts) == Joined(ss) + Joined(ts)
  {
    if ss == [] {
      assert ss + ts == ts;
    } else {
      assert (ss + ts)[1..] == ss[1..] + ts;
      JoinedAppend(ss[1..], ts);
    }
  }

  lemma JoinedStep(ss: seq<CStr>, i: nat)
    requires i < |ss|
    ensures Joined(ss[..i + 1]) == Joined(ss[..i]) + ss[i] + [0]
  {
    assert ss[..i + 1] == ss[..i] + [ss[i]];
    JoinedAppend(ss[..i], [ss[i]]);
    assert Joined([ss[i]]) == ss[i] + [0] + [];
  }

  // ---- what a sequence of renamings comes to ----

  function RenamedAll(t: Title, offsets: seq<nat>, sources: seq<seq<CStr>>): (t': Title)
    requires Usable(t, offsets) && t.space != 0
    ensures |t'.block| == |t.block| && t'.space == t.space
    decreases |sources|
  {
    if sources == [] then t else RenamedAll(Renamed(t, offsets, sources[0]), offsets, sources[1..])
  }

  /** On a contiguous block of arguments the strlen loop finds its size. */
  lemma {:induction false} OriginalSpace(args: seq<CStr>, i: nat)
    requires i <= |args|
    ensures forall k :: 0 <= k < |args| ==> Offsets(args)[k] < |Joined(args)|
    ensures SpaceFrom(Joined(args), Offsets(args), i) == |Joined(args)| - |Joined(args[..i])|
    decreases |args| - i
  {
    forall k | 0 <= k < |args|
      ensures Offsets(args)[k] < |Joined(args)|
    {
      ArgumentAt(args, k);
    }
    if i < |args| {
      OriginalSpace(args, i + 1);
      ArgumentAt(args, i);
      JoinedStep(args, i);
    } else {
      assert args[..i] == args;
    }
  }

  lemma ArgumentAt(args: seq<CStr>, i: nat)
    requires i < |args|
    ensures |Joined(args[..i])| + |args[i]| + 1 <= |Joined(args)|
    ensures CString(Joined(args)[|Joined(args[..i])|..]) == args[i]
  {
    JoinedStep(args, i);
    JoinedAppend(args[..i + 1], args[i + 1..]);
    assert args[..i + 1] + args[i + 1..] == args;
    var at, n := |Joined(args[..i])|, |args[i]|;
    var rest := Joined(args)[at..];
    assert rest == args[i] + [0] + Joined(args[i + 1..]);
    TextUpToNul(rest, n);
    assert rest[..n] == args[i];
  }

  /** After any number of renamings the block shows the latest arguments in the whole of the original space,
      whatever it showed before: later calls use the size cached by the first. */
  lemma {:induction false} LatestTitleOnly(args: seq<CStr>, sources: seq<seq<CStr>>)
    requires args != [] && sources != [] && forall k :: 0 <= k < |sources| ==> sources[k] != []
    ensures var t := Title(0, Joined(args));
            && Usable(t, Offsets(args))
            && RenamedAll(Renamed(t, Offsets(args), sources[0]), Offsets(args), sources[1..]) ==
               Title(|Joined(args)|, Shown(Joined(sources[|sources| - 1]), |Joined(args)|))
  {
    OriginalSpace(args, 0);
    var t := Title(0, Joined(args));
    var t1 := Renamed(t, Offsets(args), sources[0]);
    assert t1 == Title(|Joined(args)|, Shown(Joined(sources[0]), |Joined(args)|));
    LaterTitles(args, sources, 1, t1);
  }

  lemma {:induction false} LaterTitles(args: seq<CStr>, sources: seq<seq<CStr>>, i: nat, t: Title)
    requires args != [] && 1 <= i <= |sources| && forall k :: 0 <= k < |sources| ==> sources[k] != []
    requires Joined(args) != [] && Joined(sources[i - 1]) != []
    requires t == Title(|Joined(args)|, Shown(Joined(sources[i - 1]), |Joined(args)|))
    requires forall k :: 0 <= k < |args| ==> Offsets(args)[k] < |Joined(args)|
    ensures Joined(sources[|sources| - 1]) != []
    ensures RenamedAll(t, Offsets(args), sources[i..]) ==
            Title(|Joined(args)|, Shown(Joined(sources[|sources| - 1]), |Joined(args)|))
    decreases |sources| - i
  {
    hide Joined, Shown, SpaceFrom;
    JoinedEndsWithNul(args);
    JoinedEndsWithNul(sources[i - 1]);
    if i < |sources| {
      JoinedEndsWithNul(sources[i]);
      var t' := Renamed(t, Offsets(args), sources[i]);
      assert t'.block == Shown(Joined(sources[i]), |Joined(args)|);
      assert sources[i..][1..] == sources[i + 1..];
      LaterTitles(args, sources, i + 1, t');
    }
  }

  /** A byte of a block that is followed by zeros without end. */
  function ByteAt(bs: seq<byte>, i: nat): byte { if i < |bs| then bs[i] else 0 }

  /** The text lies at the beginning of the block, zeros included. */
  predicate Begins(text: seq<byte>, block: seq<byte>) { forall i :: 0 <= i < |text| ==> text[i] == ByteAt(block, i) }

  function AfterFirst(block: seq<byte>, s: seq<byte>): seq<byte> {
    if |s| < |block| then block[|s| + 1..] else []
  }

  lemma FirstAndRest(s: CStr, text: seq<byte>, block: seq<byte>)
    requires CString(block) == s && Begins(text, AfterFirst(block, s))
    ensures Begins(s + [0] + text, block)
  {
    CStringLength(block);
    hide CString;
    var rest := AfterFirst(block, s);
    forall i | 0 <= i < |s + [0] + text|
      ensures (s + [0] + text)[i] == ByteAt(block, i)
    {
      if i > |s| {
        assert text[i - |s| - 1] == ByteAt(rest, i - |s| - 1);
      }
    }
  }

  lemma {:induction false} JoinedOfSplit(block: seq<byte>, n: nat)
    ensures Begins(Joined(Split(block, n)), block)
    decreases n
  {
    hide CString, Begins;
    if n == 0 {
      assert Begins([], block) by { NothingBegins(block); }
    } else {
      CStringLength(block);
      var s: CStr := CString(block);
      var rest := AfterFirst(block, s);
      JoinedOfSplit(rest, n - 1);
      FirstAndRest(s, Joined(Split(rest, n - 1)), block);
      assert Split(block, n)[1..] == Split(rest, n - 1);
    }
  }

  lemma NothingBegins(block: seq<byte>)
    ensures Begins([], block)
  {
  }

  /** The first string of a block that a text begins, and the rest. */
  lemma FirstOfBlock(s: CStr, text: seq<byte>, block: seq<byte>)
    requires Begins(s + [0] + text, block)
    ensures CString(block) == s && Begins(text, AfterFirst(block, s))
  {
    hide CString;
    var all := s + [0] + text;
    forall i | 0 <= i < |s|
      ensures i < |block| && block[i] == s[i]
    {
      assert all[i] == ByteAt(block, i) == s[i] && s[i] in s;
    }
    if s != [] {
      assert s[|s| - 1] in s;
    }
    assert block[..|s|] == s;
    assert all[|s|] == ByteAt(block, |s|);
    FirstString(s, block);
    forall i | 0 <= i < |text|
      ensures text[i] == ByteAt(AfterFirst(block, s), i)
    {
      assert all[|s| + 1 + i] == ByteAt(block, |s| + 1 + i);
    }
  }

  lemma {:induction false} SplitOfJoined(ss: seq<CStr>, block: seq<byte>)
    requires Begins(Joined(ss), block)
    ensures Split(block, |ss|) == ss
  {
    hide CString, Begins, AfterFirst;
    if ss != [] {
      var s, rest := ss[0], ss[1..];
      FirstOfBlock(s, Joined(rest), block);
      SplitOfJoined(rest, AfterFirst(block, s));
      SplitStep(block, |ss|);
      assert ss == [s] + rest;
    }
  }

  lemma SplitStep(block: seq<byte>, n: nat)
    requires n > 0
    ensures 0 !in CString(block)
    ensures Split(block, n) == [CString(block)] + Split(AfterFirst(block, CString(block)), n - 1)
  {
    CStringLength(block);
  }

  lemma FirstString(s: CStr, block: seq<byte>)
    requires |s| <= |block| && block[..|s|] == s && (|s| < |block| ==> block[|s|] == 0)
    ensures CString(block) == s
  {
    assert forall j :: 0 <= j < |s| ==> block[j] == s[j] && s[j] != 0;
    if |s| < |block| {
      TextUpToNul(block, |s|);
    } else {
      assert block == s;
      CStringOfText(s);
    }
  }

  lemma {:induction false} JoinedEndsWithNul(ss: seq<CStr>)
    ensures ss != [] ==> Joined(ss) != [] && Joined(ss)[|Joined(ss)| - 1] == 0
  {
    if ss != [] {
      JoinedEndsWithNul(ss[1..]);
    }
  }

  /** The arguments can be read back from the block exactly when nothing but NULs of theirs is cut off; they can
      whenever they fit. */
  lemma TitleReadsBack(ss: seq<CStr>, space: nat)
    requires ss != [] && space > 0
    ensures Split(Shown(Joined(ss), space), |ss|) == ss <==>
            forall i :: space - 1 <= i < |Joined(ss)| ==> Joined(ss)[i] == 0
    ensures |Joined(ss)| <= space ==> Split(Shown(Joined(ss), space), |ss|) == ss
  {
    hide Split, Joined, Shown, Begins;
    JoinedEndsWithNul(ss);
    var joined, block := Joined(ss), Shown(Joined(ss), space);
    ShownBegins(joined, space);
    JoinedOfSplit(block, |ss|);
    if Begins(joined, block) {
      SplitOfJoined(ss, block);
    }
  }

  /** A block that shows a text that ends with NUL: byte for byte the text before the block's last byte, which is NUL,
      and zeros after the text. */
  lemma ShownBytes(text: seq<byte>, space: nat, i: nat)
    requires text != [] && text[|text| - 1] == 0 && i < space
    ensures Shown(text, space)[i] == if i < |text| && i < space - 1 then text[i] else 0
  {
  }

  lemma ShownBegins(text: seq<byte>, space: nat)
    requires text != [] && text[|text| - 1] == 0 && space > 0
    ensures Begins(text, Shown(text, space)) <==> forall i :: space - 1 <= i < |text| ==> text[i] == 0
    ensures |text| <= space ==> Begins(text, Shown(text, space))
  {
    var block := Shown(text, space);
    assert forall i :: 0 <= i < space - 1 && i < |text| ==> text[i] == ByteAt(block, i);
    assert forall i :: space - 1 <= i < |text| ==> ByteAt(block, i) == 0;
  }
}
