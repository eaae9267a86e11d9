/** Taking a string apart at a separator: std::getline with a delimiter and strtok_r, for the nonempty pieces. */
module Splitting {

  /** How far a token reaches: to the first separator or the end. */
  function TokenLength(s: string, sep: char): (n: nat)
    ensures n <= |s| && sep !in s[..n] && (n < |s| ==> s[n] == sep)
  {
    if s == "" || s[0] == sep then 0 else 1 + TokenLength(s[1..], sep)
  }

  /** The nonempty pieces between separators. */
  function Tokens(s: string, sep: char): seq<string>
    decreases |s|
  {
    if s == "" then []
    else
      var n := TokenLength(s, sep);
      (if n == 0 then [] else [s[..n]]) + Tokens(s[if n < |s| then n + 1 else n..], sep)
  }

  // ---- reading one token ----

  /** What is read up to a separator, and where to go on. */
  method GetToken(s: string, at: nat, sep: char) returns (token: string, at': nat)
    requires at < |s|
    ensures var n := TokenLength(s[at..], sep);
            token == s[at..][..n] && at' == at + (if n < |s| - at then n + 1 else n)
  {
    at' := at;
    while at' < |s| && s[at'] != sep
      invariant at <= at' <= |s| && at' - at + TokenLength(s[at'..], sep) == TokenLength(s[at..], sep)
    {
      at' := at' + 1;
    }
    token := s[at..at'];
    assert token == s[at..][..at' - at];
    if at' < |s| {
      at' := at' + 1;
    }
  }

  // ---- what tokens are ----

  lemma NoTokens(sep: char)
    ensures Tokens("", sep) == []
  {
  }

  lemma TokensStep(s: string, sep: char)
    requires s != ""
    ensures var n := TokenLength(s, sep);
            var rest := s[if n < |s| then n + 1 else n..];
            Tokens(s, sep) == if n == 0 then Tokens(rest, sep) else [s[..n]] + Tokens(rest, sep)
  {
    assert [] + Tokens(s[1..], sep) == Tokens(s[1..], sep);
  }

  /** Tokens are what taking apart gives: with TokensOfWord this says what they are for every string. */
  lemma {:induction false} TokensAreSeparated(a: string, b: string, sep: char)
    ensures Tokens(a + [sep] + b, sep) == Tokens(a, sep) + Tokens(b, sep)
    decreases |a|
  {
    hide Tokens, TokenLength;
    var s, n := a + [sep] + b, TokenLength(a, sep);
    assert s == a + ([sep] + b);
    TokenInFront(a, [sep] + b, sep);
    assert s[..n] == a[..n];
    TokensStep(s, sep);
    NoTokens(sep);
    if a == "" {
      assert s[1..] == b;
      assert [] + Tokens(b, sep) == Tokens(b, sep);
    } else {
      TokensStep(a, sep);
      if n < |a| {
        var rest := a[n + 1..];
        assert s[n + 1..] == rest + [sep] + b;
        TokensAreSeparated(rest, b, sep);
        assert [s[..n]] + (Tokens(rest, sep) + Tokens(b, sep)) == [s[..n]] + Tokens(rest, sep) + Tokens(b, sep);
      } else {
        assert s[n + 1..] == b;
        assert a[n..] == "";
        assert [a[..n]] + [] == [a[..n]];
      }
    }
  }

  lemma {:induction false} TokenInFront(a: string, b: string, sep: char)
    requires b != "" && b[0] == sep
    ensures TokenLength(a + b, sep) == TokenLength(a, sep)
  {
    if a != "" && a[0] != sep {
      assert (a + b)[1..] == a[1..] + b;
      TokenInFront(a[1..], b, sep);
    }
  }

  lemma TokensOfWord(w: string, sep: char)
    requires sep !in w
    ensures Tokens(w, sep) == if w == "" then [] else [w]
  {
    if w != "" {
      var n := TokenLength(w, sep);
      assert n == |w| && w[..n] == w && w[n..] == "";
      assert [w] + [] == [w];
    }
  }
}
