/** The chain of booster types an invoker tries: invoke and invoke_fallback in src/invoker/invoker.cpp. */
module Fallback {
  import opened Splitting

  /** How invoker_init goes: no socket can be opened, the type is not acceptable, nobody listens, or a connection. */
  datatype Attempt = NoSocket | Invalid | Refused | Connected

  predicate Fails(a: Attempt) { a.NoSocket? || a.Refused? }

  /** What becomes of the invoker: it dies over an invalid type; it has a session, and invoke returns; it becomes the
      application; it starts the application in a child, and invoke returns; or that cannot be done, and it exits. */
  datatype Outcome =
    | Died
    | Session(returned: int)
    | Replaced
    | Forked(returned: int)
    | Failed

  const GENERIC := "generic"

  function Last(tokens: seq<string>, appType: string): string {
    if tokens == [] then appType else tokens[|tokens| - 1]
  }

  /** The types in the order in which they are tried: those listed, and the generic booster at the end. */
  function Chain(appType: string): (chain: seq<string>)
    ensures chain != [] && chain[|chain| - 1] == GENERIC
  {
    var tokens := Tokens(appType, ',');
    if Last(tokens, appType) == GENERIC && tokens != [] then tokens else tokens + [GENERIC]
  }

  lemma GenericIsOneToken()
    ensures Tokens(GENERIC, ',') == [GENERIC]
  {
    TokensOfWord(GENERIC, ',');
  }

  /** A process that invokes; `tried` is what it has asked for, `attempts` how each attempt goes, and `forks` and
      `execs` whether a direct start succeeds. */
  class Invoker {
    var tried: seq<string>
    const attempts: nat -> Attempt
    const status: int
    const forks: bool
    const execs: bool

    constructor (attempts: nat -> Attempt, status: int, forks: bool, execs: bool)
      ensures tried == [] && this.attempts == attempts && this.status == status
      ensures this.forks == forks && this.execs == execs
    {
      tried, this.attempts, this.status, this.forks, this.execs := [], attempts, status, forks, execs;
    }

    /** A direct start: in a child if nobody waits, where what execve does is no longer the invoker's affair. */
    function DirectStart(wait: bool): (o: Outcome)
      ensures wait ==> o == if execs then Replaced else Failed
      ensures !wait ==> o == if forks then Forked(0) else Failed
    {
      if wait then (if execs then Replaced else Failed) else (if forks then Forked(0) else Failed)
    }

    method InvokerInit(appType: string) returns (a: Attempt)
      modifies this
      ensures tried == old(tried) + [appType] && a == attempts(|old(tried)|)
    {
      a := attempts(|tried|);
      tried := tried + [appType];
    }

    method InvokeFallback(wait: bool) returns (o: Outcome)
      ensures o == DirectStart(wait)
    {
      if !wait {
        return if forks then Forked(0) else Failed;
      }
      o := if execs then Replaced else Failed;
    }

    /** The strtok_r loop: the types are tried in order until one does not fail. */
    method TryTypes(appType: string) returns (o: Attempt, last: string)
      modifies this
      ensures 0 <= |tried| - |old(tried)| <= |Tokens(appType, ',')|
      ensures tried == old(tried) + Tokens(appType, ',')[..|tried| - |old(tried)|]
      ensures forall j :: |old(tried)| <= j < |tried| - 1 ==> Fails(attempts(j))
      ensures o == if tried == old(tried) then Refused else attempts(|tried| - 1)
      ensures last == if tried == old(tried) then appType else tried[|tried| - 1]
      ensures Fails(o) ==> |tried| - |old(tried)| == |Tokens(appType, ',')|
    {
      hide Tokens, TokenLength;
      ghost var start, left := |tried|, Tokens(appType, ',');
      last, o := appType, Refused;
      var at := 0;
      assert appType[0..] == appType;
      while at < |appType| && Fails(o)
        invariant at <= |appType| && start <= |tried| && tried + left == old(tried) + Tokens(appType, ',')
        invariant Fails(o) ==> left == Tokens(appType[at..], ',')
        invariant forall j :: start <= j < |tried| - 1 ==> Fails(attempts(j))
        invariant |tried| == start ==> o == Refused && last == appType
        invariant |tried| > start ==> o == attempts(|tried| - 1) && last == tried[|tried| - 1]
        decreases |appType| - at
      {
        ghost var before := at;
        var token: string;
        token, at := GetToken(appType, at, ',');
        left := NextType(tried, left, appType, before, token, at);
        if token != "" {
          last := token;
          o := InvokerInit(token);
        }
      }
      TypesTried(old(tried), Tokens(appType, ','), tried, left);
      NoTypesLeft(appType);
    }

    /** Whatever the list and whatever is available, with at most one level of recursion. */
    method Invoke(appType: string, wait: bool) returns (o: Outcome)
      modifies this
      ensures Invoked(attempts, status, DirectStart(wait), appType, old(tried), tried, o)
      ensures o == Replaced ==> wait && execs
      ensures o.Forked? ==> o == Forked(0) && !wait && forks
      ensures o == Failed ==> if wait then !execs else !forks
      decreases if appType == GENERIC then 0 else 1
    {
      hide Tokens, Chain, Last, Invoked, DirectStart;
      ghost var direct := DirectStart(wait);
      var a, last := TryTypes(appType);
      if a.Invalid? {
        StopsInList(attempts, status, direct, appType, old(tried), tried, Died);
        return Died;
      }
      if a.Connected? {
        StopsInList(attempts, status, direct, appType, old(tried), tried, Session(status));
        return Session(status);
      }
      ListFails(appType, old(tried), tried, last);
      if last == GENERIC {
        o := InvokeFallback(wait);
        StopsAfterList(attempts, status, direct, appType, old(tried), tried, o);
      } else {
        ghost var middle := tried;
        var inner := Invoke(GENERIC, wait);
        o := match inner
             case Session(_) => Session(0)
             case Forked(_) => Forked(0)
             case _ => inner;
        StopsAtGeneric(attempts, status, direct, appType, old(tried), middle, tried, inner);
      }
    }
  }

  /** The chain has been tried from its start until an attempt did not fail; the outcome is one session, death over the
      type tried last, or, when every attempt has failed, one direct start.  The status of a session comes back
      unless it was the generic booster asked as a last resort: then invoke returns 0. */
  ghost predicate Invoked(attempts: nat -> Attempt, status: int, direct: Outcome, appType: string,
                          before: seq<string>, tried: seq<string>, o: Outcome)
  {
    var chain, n := Chain(appType), |tried| - |before|;
    && 0 < n <= |chain| && tried == before + chain[..n]
    && (forall j :: |before| <= j < |tried| - 1 ==> Fails(attempts(j)))
    && match attempts(|tried| - 1)
       case Invalid => o == Died
       case Connected => o == Session(if n <= |Tokens(appType, ',')| then status else 0)
       case _ => n == |chain| && o == direct
  }

  /** What that says of the attempts, one by one. */
  lemma InvokedMeans(attempts: nat -> Attempt, status: int, direct: Outcome, appType: string,
                     before: seq<string>, tried: seq<string>, o: Outcome)
    requires Invoked(attempts, status, direct, appType, before, tried, o)
    ensures |before| < |tried| <= |before| + |Chain(appType)| && tried <= before + Chain(appType)
    ensures forall j :: |before| <= j < |tried| - 1 ==> attempts(j) == NoSocket || attempts(j) == Refused
    ensures attempts(|tried| - 1) == Invalid ==> o == Died
    ensures attempts(|tried| - 1) == Connected ==>
              o == Session(if |tried| <= |before| + |Tokens(appType, ',')| then status else 0)
    ensures attempts(|tried| - 1) == NoSocket || attempts(|tried| - 1) == Refused ==>
              tried == before + Chain(appType) && o == direct
  {
    hide Chain, Tokens;
    assert Chain(appType)[..|Chain(appType)|] == Chain(appType);
  }

  lemma StopsInList(attempts: nat -> Attempt, status: int, direct: Outcome, appType: string,
                    before: seq<string>, tried: seq<string>, o: Outcome)
    requires 0 < |tried| - |before| <= |Tokens(appType, ',')|
    requires tried == before + Tokens(appType, ',')[..|tried| - |before|]
    requires forall j :: |before| <= j < |tried| - 1 ==> Fails(attempts(j))
    requires attempts(|tried| - 1).Invalid? || attempts(|tried| - 1).Connected?
    requires o == if attempts(|tried| - 1).Invalid? then Died else Session(status)
    ensures Invoked(attempts, status, direct, appType, before, tried, o)
  {
    hide Tokens, Chain, Last;
    ChainIs(appType);
    var tokens, n := Tokens(appType, ','), |tried| - |before|;
    assert (tokens + [GENERIC])[..n] == tokens[..n];
  }

  lemma ListFails(appType: string, before: seq<string>, tried: seq<string>, last: string)
    requires |tried| - |before| == |Tokens(appType, ',')|
    requires tried == before + Tokens(appType, ',')[..|tried| - |before|]
    requires last == if tried == before then appType else tried[|tried| - 1]
    ensures tried == before + Tokens(appType, ',')
    ensures last == GENERIC ==> tried != before && Chain(appType) == Tokens(appType, ',')
    ensures last != GENERIC ==> appType != GENERIC && Chain(appType) == Tokens(appType, ',') + [GENERIC]
  {
    hide Tokens, Chain;
    ChainIs(appType);
    assert Tokens(appType, ',')[..|Tokens(appType, ',')|] == Tokens(appType, ',');
  }

  lemma StopsAfterList(attempts: nat -> Attempt, status: int, direct: Outcome, appType: string,
                       before: seq<string>, tried: seq<string>, o: Outcome)
    requires tried == before + Chain(appType) && o == direct && Fails(attempts(|tried| - 1))
    requires forall j :: |before| <= j < |tried| - 1 ==> Fails(attempts(j))
    ensures Invoked(attempts, status, direct, appType, before, tried, o)
  {
    hide Tokens, Chain;
    assert Chain(appType)[..|Chain(appType)|] == Chain(appType);
  }

  lemma StopsAtGeneric(attempts: nat -> Attempt, status: int, direct: Outcome, appType: string,
                       before: seq<string>, middle: seq<string>, tried: seq<string>, inner: Outcome)
    requires middle == before + Tokens(appType, ',') && Chain(appType) == Tokens(appType, ',') + [GENERIC]
    requires forall j :: |before| <= j < |middle| ==> Fails(attempts(j))
    requires direct != Died && !direct.Session? && (direct.Forked? ==> direct == Forked(0))
    requires Invoked(attempts, status, direct, GENERIC, middle, tried, inner)
    ensures var o := match inner
                     case Session(_) => Session(0)
                     case Forked(_) => Forked(0)
                     case _ => inner;
            Invoked(attempts, status, direct, appType, before, tried, o)
  {
    hide Tokens, Chain, Last;
    ChainIs(GENERIC);
    assert [GENERIC][..1] == [GENERIC];
    assert tried == before + Chain(appType);
    assert Chain(appType)[..|Chain(appType)|] == Chain(appType);
  }

  /** One piece of the list read, and the types that are left. */
  lemma NextType(tried: seq<string>, left: seq<string>, appType: string, before: nat, token: string, at: nat)
    returns (left': seq<string>)
    requires before < |appType| && left == Tokens(appType[before..], ',')
    requires var k := TokenLength(appType[before..], ',');
             token == appType[before..][..k] && at == before + (if k < |appType| - before then k + 1 else k)
    ensures before < at <= |appType| && left' == Tokens(appType[at..], ',')
    ensures tried + left == (if token == "" then tried else tried + [token]) + left'
  {
    hide Tokens;
    left' := Tokens(appType[at..], ',');
    TokensStep(appType[before..], ',');
    assert appType[before..][at - before..] == appType[at..];
    if token != "" {
      assert tried + ([token] + left') == tried + [token] + left';
    }
  }

  lemma TypesTried(before: seq<string>, tokens: seq<string>, tried: seq<string>, left: seq<string>)
    requires tried + left == before + tokens && |before| <= |tried|
    ensures |tried| - |before| <= |tokens| && tried == before + tokens[..|tried| - |before|]
    ensures left == [] ==> |tried| - |before| == |tokens|
  {
    assert |tried + left| == |before + tokens|;
    assert tried == (tried + left)[..|tried|];
  }

  lemma NoTypesLeft(appType: string)
    ensures Tokens(appType[|appType|..], ',') == []
  {
    assert appType[|appType|..] == "";
  }

  /** What the chain is, in words: the types listed, and "generic" after them unless it is the last of them. */
  lemma ChainEndsGeneric(appType: string)
    ensures var tokens := Tokens(appType, ',');
            Chain(appType) == if tokens != [] && tokens[|tokens| - 1] == "generic" then tokens else tokens + ["generic"]
  {
    ChainIs(appType);
  }

  lemma ChainIs(appType: string)
    ensures var tokens := Tokens(appType, ',');
            && Chain(appType) == (if Last(tokens, appType) == GENERIC then tokens else tokens + [GENERIC])
            && (tokens == [] ==> appType != GENERIC)
            && (appType == GENERIC ==> tokens == [GENERIC] && Chain(appType) == [GENERIC])
  {
    GenericIsOneToken();
  }
}
