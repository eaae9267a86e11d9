/** The invoker's standard streams in the application: the dup2 loop of Booster::setEnvironmentBeforeLaunch,
    src/launcherlib/booster.cpp. */
module Descriptors {

  /** The open descriptors of a process and the open file each refers to. */
  type Table = map<int, int>

  function Dup2(t: Table, from: int, to: int): Table { if from in t then t[to := t[from]] else t }

  function Duplicated(t: Table, io: seq<int>, i: nat): Table
    requires i < |io|
  {
    if io[i] > 0 then Dup2(t, io[i], i) - {io[i]} else t
  }

  function Installed(t: Table, io: seq<int>, i: nat): Table
    requires i <= |io|
    decreases |io| - i
  {
    if i == |io| then t else Installed(Duplicated(t, io, i), io, i + 1)
  }

  class Process {
    var fds: Table

    constructor (fds: Table)
      ensures this.fds == fds
    {
      this.fds := fds;
    }

    method Install(io: seq<int>)
      modifies this
      ensures fds == Installed(old(fds), io, 0)
    {
      for i := 0 to |io|
        invariant Installed(fds, io, i) == Installed(old(fds), io, 0)
      {
        if io[i] > 0 {
          fds := Dup2(fds, io[i], i);
          fds := fds - {io[i]};
        }
      }
    }
  }

  /** Three descriptors, each -1 for none or one of the open ones, no two the same. */
  predicate Received(t: Table, io: seq<int>) {
    && |io| == 3
    && (forall i :: 0 <= i < 3 ==> io[i] == -1 || (io[i] >= 0 && io[i] in t))
    && forall i, j :: 0 <= i < j < 3 && io[i] == io[j] ==> io[i] == -1
  }

  /** Standard stream i refers to the file given for it, or is as before; the descriptors the files came in are
      closed; and every other descriptor is as before. */
  ghost predicate AsAsked(t: Table, io: seq<int>, t': Table)
    requires Received(t, io)
  {
    && (forall i :: 0 <= i < 3 ==> if io[i] == -1 then SameAt(t, t', i) else i in t' && t'[i] == t[io[i]])
    && (forall k :: !(0 <= k < 3) ==> if k in io && k != -1 then k !in t' else SameAt(t, t', k))
  }

  ghost predicate DifferentFiles(t: Table) { forall j, k :: j in t && k in t && t[j] == t[k] ==> j == k }

  predicate SameAt(t: Table, t': Table, k: int) {
    (k in t <==> k in t') && (k in t ==> t[k] == t'[k])
  }

  /** The second and the third file must come in descriptors above the stream they are for, and a stream whose
      descriptor carries a file for an earlier stream must be given one too. */
  predicate Safe(io: seq<int>)
    requires |io| == 3
  {
    forall i :: 0 <= i < 3 && io[i] != -1 ==>
      (i == 0 || io[i] > i) && (i < io[i] < 3 ==> io[io[i]] != -1)
  }

  lemma Unrolled(t: Table, io: seq<int>)
    requires |io| == 3
    ensures Installed(t, io, 0) == Duplicated(Duplicated(Duplicated(t, io, 0), io, 1), io, 2)
  {
    var t2 := Duplicated(Duplicated(t, io, 0), io, 1);
    assert Installed(t2, io, 2) == Installed(Duplicated(t2, io, 2), io, 3);
  }

  /** The loop installs the streams if the descriptors are safe, and, where different descriptors refer to
      different files, only then.  They are safe when they are all at least three. */
  lemma StreamsInstalled(t: Table, io: seq<int>)
    requires Received(t, io)
    ensures Safe(io) ==> AsAsked(t, io, Installed(t, io, 0))
    ensures DifferentFiles(t) && AsAsked(t, io, Installed(t, io, 0)) ==> Safe(io)
    ensures (forall i :: 0 <= i < 3 ==> io[i] == -1 || io[i] >= 3) ==> Safe(io)
  {
    Unrolled(t, io);
    if Safe(io) {
      SafeInstalls(t, io);
    } else if DifferentFiles(t) {
      UnsafeFails(t, io);
    }
  }

  lemma SafeInstalls(t: Table, io: seq<int>)
    requires Received(t, io) && Safe(io)
    ensures AsAsked(t, io, Duplicated(Duplicated(Duplicated(t, io, 0), io, 1), io, 2))
  {
    var t1 := Duplicated(t, io, 0);
    var t2 := Duplicated(t1, io, 1);
    var t3 := Duplicated(t2, io, 2);
    forall k | !(0 <= k < 3)
      ensures if k in io && k != -1 then k !in t3 else SameAt(t, t3, k)
    {
      OthersInstalled(t, io, k);
    }
    FirstInstalled(t, io);
    SecondInstalled(t, io);
    ThirdInstalled(t, io);
    hide Duplicated, Safe, Received;
    forall i | 0 <= i < 3
      ensures if io[i] == -1 then SameAt(t, t3, i) else i in t3 && t3[i] == t[io[i]]
    {
      assert i == 0 || i == 1 || i == 2;
    }
  }

  lemma OthersInstalled(t: Table, io: seq<int>, k: int)
    requires Received(t, io) && Safe(io) && !(0 <= k < 3)
    ensures var t3 := Duplicated(Duplicated(Duplicated(t, io, 0), io, 1), io, 2);
            if k in io && k != -1 then k !in t3 else SameAt(t, t3, k)
  {
    assert io == [io[0], io[1], io[2]];
  }

  lemma FirstInstalled(t: Table, io: seq<int>)
    requires Received(t, io) && Safe(io)
    ensures var t3 := Duplicated(Duplicated(Duplicated(t, io, 0), io, 1), io, 2);
            if io[0] == -1 then SameAt(t, t3, 0) else 0 in t3 && t3[0] == t[io[0]]
  {
  }

  lemma SecondInstalled(t: Table, io: seq<int>)
    requires Received(t, io) && Safe(io)
    ensures var t3 := Duplicated(Duplicated(Duplicated(t, io, 0), io, 1), io, 2);
            if io[1] == -1 then SameAt(t, t3, 1) else 1 in t3 && t3[1] == t[io[1]]
  {
    assert io[0] == 1 ==> io[1] != -1;
  }

  lemma ThirdInstalled(t: Table, io: seq<int>)
    requires Received(t, io) && Safe(io)
    ensures var t3 := Duplicated(Duplicated(Duplicated(t, io, 0), io, 1), io, 2);
            if io[2] == -1 then SameAt(t, t3, 2) else 2 in t3 && t3[2] == t[io[2]]
  {
    assert io[0] == 2 || io[1] == 2 ==> io[2] != -1;
  }

  lemma UnsafeFails(t: Table, io: seq<int>)
    requires Received(t, io) && !Safe(io) && DifferentFiles(t)
    ensures !AsAsked(t, io, Duplicated(Duplicated(Duplicated(t, io, 0), io, 1), io, 2))
  {
    var t1 := Duplicated(t, io, 0);
    var t2 := Duplicated(t1, io, 1);
    var t3 := Duplicated(t2, io, 2);
    if io[1] != -1 && io[1] <= 1 {
      assert !(1 in t3 && t3[1] == t[io[1]]);
    } else if io[2] != -1 && io[2] <= 2 {
      assert !(2 in t3 && t3[2] == t[io[2]]) || (io[2] == 1 && io[1] == -1 && !SameAt(t, t3, 1));
    } else if 0 < io[0] < 3 && io[io[0]] == -1 {
      assert io[0] in t && io[0] !in t3;
    } else {
      assert io[1] == 2 && io[2] == -1 && 2 in t && 2 !in t3;
    }
  }
}
