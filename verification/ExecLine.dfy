/** The Exec key of a desktop file: the option handling of main in src/invoker/invoker.cpp. */
module ExecLine {
  import opened Splitting

  /** Space, tab, newline, carriage return, vertical tab and form feed. */
  predicate IsSpace(c: char) { c in " \t\n\r" || c == 11 as char || c == 12 as char }

  function SkipSpaces(s: string): (rest: string)
    ensures |rest| <= |s|
  {
    if s != "" && IsSpace(s[0]) then SkipSpaces(s[1..]) else s
  }

  function Word(s: string): (w: string)
    ensures |w| <= |s|
  {
    if s == "" || IsSpace(s[0]) then "" else [s[0]] + Word(s[1..])
  }

  function Program(exec: string): string { Word(SkipSpaces(exec)) }

  function AfterProgram(exec: string): string { SkipSpaces(exec)[|Program(exec)|..] }

  predicate IsCode(token: string) { |token| == 2 && token[0] == '%' }

  /** A code stands for all of the user's arguments if it is for files or URLs, and for nothing otherwise. */
  function Expansion(token: string, args: seq<string>): seq<string> {
    if !IsCode(token) then [token] else if token[1] in "fFuU" then args else []
  }

  function Expanded(tokens: seq<string>, args: seq<string>): seq<string> {
    if tokens == [] then [] else Expansion(tokens[0], args) + Expanded(tokens[1..], args)
  }

  predicate HasOption(argv: seq<string>) {
    exists i :: 1 <= i < |argv| && argv[i] != "" && argv[i][0] == '-'
  }

  /** The argument vector an Exec line makes of the invoker's own. */
  function NewArgv(exec: string, argv: seq<string>): seq<string>
    requires argv != []
  {
    if HasOption(argv) then argv else [argv[0]] + Expanded(Tokens(AfterProgram(exec), ' '), argv[1..])
  }

  // ---- the loops ----

  /** The array under construction. */
  class ArgumentArray {
    var pargv: array<string>
    var psize: nat
    var pargc: nat

    ghost predicate Valid()
      reads this
    {
      psize == pargv.Length == 10 * (pargc / 10 + 1) && pargc < psize
    }

    /** The arguments after the first slot, which is filled in last. */
    ghost function Contents(): seq<string>
      requires Valid()
      reads this, pargv
    {
      pargv[1..pargc + 1]
    }

    constructor ()
      ensures Valid() && Contents() == [] && fresh(pargv) && pargc == 0
    {
      psize, pargc := 10, 0;
      pargv := new string[10];
    }

    /** D_GROW_ARRAY2. */
    method Grow()
      requires psize == pargv.Length
      modifies this`pargv, this`psize
      ensures psize == pargv.Length == old(psize) + 10 && fresh(pargv)
      ensures pargv[..old(psize)] == old(pargv[..])
    {
      var bigger := new string[psize + 10];
      forall i | 0 <= i < psize {
        bigger[i] := pargv[i];
      }
      psize, pargv := psize + 10, bigger;
    }

    /** The slot written is within the array, and no slot filled before is lost. */
    method Append(arg: string)
      requires Valid()
      modifies this, pargv
      ensures Valid() && Contents() == old(Contents()) + [arg] && pargc == old(pargc) + 1
      ensures pargv == old(pargv) || fresh(pargv)
    {
      ghost var contents := Contents();
      pargc := pargc + 1;
      if pargc >= psize {
        Grow();
        assert pargv[1..pargc] == pargv[..pargc][1..] == contents;
      }
      assert pargv[1..pargc] == contents;
      pargv[pargc] := arg;
      assert pargv[1..pargc + 1] == pargv[1..pargc] + [arg];
    }

    method AppendAll(argv: seq<string>)
      requires Valid() && argv != []
      modifies this, pargv
      ensures Valid() && Contents() == old(Contents()) + argv[1..] && pargc == old(pargc) + |argv| - 1
      ensures pargv == old(pargv) || fresh(pargv)
    {
      var i := 1;
      while i < |argv|
        invariant 1 <= i <= |argv| && Valid() && pargc == old(pargc) + i - 1
        invariant Contents() == old(Contents()) + argv[1..i]
        invariant pargv == old(pargv) || fresh(pargv)
      {
        assert argv[1..i + 1] == argv[1..i] + [argv[i]];
        Append(argv[i]);
        i := i + 1;
      }
      assert argv[1..i] == argv[1..];
    }

    /** The first slot is filled, and the arguments are complete. */
    method Finish(first: string) returns (newArgv: seq<string>, capacity: nat)
      requires Valid()
      modifies pargv
      ensures newArgv == [first] + old(Contents())
      ensures |newArgv| <= capacity && (|newArgv| < capacity <==> |newArgv| % 10 != 0)
    {
      pargv[0] := first;
      capacity := psize;
      Capacity(pargc + 1);
      newArgv := pargv[..pargc + 1];
      assert newArgv[1..] == pargv[1..pargc + 1];
    }

    method AddToken(token: string, argv: seq<string>)
      requires Valid() && argv != []
      modifies this, pargv
      ensures Valid() && Contents() == old(Contents()) + Expansion(token, argv[1..])
      ensures pargv == old(pargv) || fresh(pargv)
    {
      ghost var contents := Contents();
      if |token| == 2 && token[0] == '%' {
        match token[1] {
          case 'f' => AppendAll(argv);
          case 'F' => AppendAll(argv);
          case 'u' => AppendAll(argv);
          case 'U' => AppendAll(argv);
          case _ => assert contents + [] == contents;
        }
      } else {
        Append(token);
      }
    }

    /** The loop over the rest of the Exec line. */
    method AddTokens(exec: string, start: nat, argv: seq<string>)
      requires Valid() && argv != [] && start <= |exec|
      modifies this, pargv
      ensures Valid() && Contents() == old(Contents()) + Expanded(Tokens(exec[start..], ' '), argv[1..])
      ensures pargv == old(pargv) || fresh(pargv)
    {
      hide Expansion, Tokens, Expanded, TokenLength, Valid;
      ghost var args, all := argv[1..], Contents() + Expanded(Tokens(exec[start..], ' '), argv[1..]);
      var at := start;
      while at < |exec|
        invariant at <= |exec| && Valid() && (pargv == old(pargv) || fresh(pargv))
        invariant Contents() + Expanded(Tokens(exec[at..], ' '), args) == all
        decreases |exec| - at
      {
        ghost var before, contents := at, Contents();
        var token: string;
        token, at := GetToken(exec, at, ' ');
        OneTokenMore(exec, before, token, at, args, contents);
        if token != "" {
          AddToken(token, argv);
        }
      }
      AllTokens(exec, args, Contents());
    }
  }

  method ContainsOption(argv: seq<string>) returns (contains: bool)
    ensures contains <==> HasOption(argv)
  {
    contains := false;
    var i := 1;
    while i < |argv|
      invariant forall j :: 1 <= j < i && j < |argv| ==> argv[j] == "" || argv[j][0] != '-'
    {
      if argv[i] != "" && argv[i][0] == '-' {
        return true;
      }
      i := i + 1;
    }
  }

  /** iss >> progress. */
  method ReadProgram(exec: string) returns (program: string, at: nat)
    ensures at <= |exec| && program == Program(exec) && exec[at..] == AfterProgram(exec)
  {
    var start := Skip(exec);
    program, at := ReadWord(exec, start);
    assert exec[start..][at - start..] == exec[at..];
  }

  method Skip(s: string) returns (at: nat)
    ensures at <= |s| && s[at..] == SkipSpaces(s)
  {
    hide IsSpace;
    at := 0;
    assert s[0..] == s;
    while at < |s| && IsSpace(s[at])
      invariant at <= |s| && SkipSpaces(s[at..]) == SkipSpaces(s)
    {
      assert s[at..][1..] == s[at + 1..];
      at := at + 1;
    }
  }

  method ReadWord(s: string, start: nat) returns (word: string, at: nat)
    requires start <= |s|
    ensures start <= at <= |s| && word == Word(s[start..]) && |word| == at - start
  {
    hide IsSpace, Word;
    word, at := "", start;
    assert "" + Word(s[start..]) == Word(s[start..]);
    while at < |s| && !IsSpace(s[at])
      invariant start <= at <= |s| && |word| == at - start
      invariant word + Word(s[at..]) == Word(s[start..])
    {
      WordStep(s[at..]);
      assert s[at..][1..] == s[at + 1..];
      assert word + ([s[at]] + Word(s[at + 1..])) == word + [s[at]] + Word(s[at + 1..]);
      word := word + [s[at]];
      at := at + 1;
    }
    WordEnds(s[at..]);
    assert word + "" == word;
  }

  lemma WordStep(s: string)
    requires s != "" && !IsSpace(s[0])
    ensures Word(s) == [s[0]] + Word(s[1..])
  {
  }

  lemma WordEnds(s: string)
    requires s == "" || IsSpace(s[0])
    ensures Word(s) == ""
  {
  }

  /** What main makes of the command line and the Exec line.  The array the new arguments lie in has room for a
      NULL after the last of them unless their number is a multiple of ten; nothing puts one there. */
  method ExpandExec(exec: string, argv: seq<string>) returns (program: string, newArgv: seq<string>, capacity: nat)
    requires argv != []
    ensures program == Program(exec)
    ensures newArgv == NewArgv(exec, argv)
    ensures !HasOption(argv) ==> |newArgv| <= capacity && (|newArgv| < capacity <==> |newArgv| % 10 != 0)
  {
    hide Tokens, Expanded, Program, AfterProgram, HasOption, ArgumentArray.Valid, ArgumentArray.Contents;
    var at: nat;
    program, at := ReadProgram(exec);
    var contains := ContainsOption(argv);
    if contains {
      return program, argv, |argv|;
    }
    var a := new ArgumentArray();
    a.AddTokens(exec, at, argv);
    newArgv, capacity := a.Finish(argv[0]);
  }

  lemma ExpandedCons(token: string, tokens: seq<string>, args: seq<string>)
    ensures Expanded([token] + tokens, args) == Expansion(token, args) + Expanded(tokens, args)
  {
    assert ([token] + tokens)[1..] == tokens;
  }

  lemma NoneExpanded(args: seq<string>)
    ensures Expanded([], args) == []
  {
  }

  /** What is to come is the expansion of the token just read and what is to come after it. */
  lemma OneTokenMore(exec: string, before: nat, token: string, at: nat, args: seq<string>, contents: seq<string>)
    requires before < |exec|
    requires var n := TokenLength(exec[before..], ' ');
             token == exec[before..][..n] && at == before + (if n < |exec| - before then n + 1 else n)
    ensures before < at <= |exec|
    ensures contents + Expanded(Tokens(exec[before..], ' '), args) ==
            (if token == "" then contents else contents + Expansion(token, args))
            + Expanded(Tokens(exec[at..], ' '), args)
  {
    hide Tokens, Expanded, Expansion;
    var s := exec[before..];
    TokensStep(s, ' ');
    assert s[at - before..] == exec[at..];
    if token != "" {
      ExpandedCons(token, Tokens(exec[at..], ' '), args);
      Associative(contents, Expansion(token, args), Expanded(Tokens(exec[at..], ' '), args));
    }
  }

  lemma AllTokens(exec: string, args: seq<string>, contents: seq<string>)
    ensures contents + Expanded(Tokens(exec[|exec|..], ' '), args) == contents
  {
    assert exec[|exec|..] == "";
    NoTokens(' ');
    NoneExpanded(args);
  }

  lemma Associative(a: seq<string>, b: seq<string>, c: seq<string>)
    ensures a + (b + c) == a + b + c
  {
  }

  /** How many slots n arguments are given. */
  lemma Capacity(n: nat)
    requires n > 0
    ensures var size := 10 * ((n - 1) / 10 + 1); n <= size && (n < size <==> n % 10 != 0)
  {
  }

  // ---- what the program, the tokens and their expansion are ----

  /** The program is the first run of characters that are not white space; every Exec line is of this form. */
  lemma ProgramIsFirstWord(lead: string, word: string, rest: string)
    requires forall c :: c in lead ==> c as int == 32 || 9 <= c as int <= 13
    requires forall c :: c in word ==> !(c as int == 32 || 9 <= c as int <= 13)
    requires rest == "" || (word != "" && (rest[0] as int == 32 || 9 <= rest[0] as int <= 13))
    ensures Program(lead + word + rest) == word && AfterProgram(lead + word + rest) == rest
  {
    SpaceCodes();
    FirstWord(lead, word, rest);
  }

  lemma SpaceCodes()
    ensures forall c: char :: IsSpace(c) <==> c as int == 32 || 9 <= c as int <= 13
  {
  }

  lemma {:induction false} FirstWord(lead: string, word: string, rest: string)
    requires (forall c :: c in lead ==> IsSpace(c)) && forall c :: c in word ==> !IsSpace(c)
    requires rest == "" || (word != "" && IsSpace(rest[0]))
    ensures Program(lead + word + rest) == word && AfterProgram(lead + word + rest) == rest
  {
    hide IsSpace;
    var s := lead + word + rest;
    if lead == "" {
      assert s == word + rest;
      assert word != "" ==> word[0] in word;
      WordInFront(word, rest);
    } else {
      assert lead[0] in lead && s[1..] == lead[1..] + word + rest;
      FirstWord(lead[1..], word, rest);
    }
  }

  lemma {:induction false} WordInFront(word: string, rest: string)
    requires (forall c :: c in word ==> !IsSpace(c)) && (rest == "" || IsSpace(rest[0]))
    ensures Word(word + rest) == word
  {
    if word == "" {
      assert word + rest == rest;
    } else {
      assert word[0] in word && (word + rest)[1..] == word[1..] + rest;
      WordInFront(word[1..], rest);
    }
  }

  lemma {:induction false} ExpandedAppend(a: seq<string>, b: seq<string>, args: seq<string>)
    ensures Expanded(a + b, args) == Expanded(a, args) + Expanded(b, args)
  {
    if a == [] {
      assert a + b == b;
    } else {
      assert (a + b)[1..] == a[1..] + b;
      ExpandedAppend(a[1..], b, args);
    }
  }

  /** A file code anywhere in an Exec line puts all of the user's arguments in its place, between what comes of the
      text before it and of the text after it; any other code leaves nothing there. */
  lemma CodeInPlace(before: string, c: char, after: string, args: seq<string>)
    requires c != ' '
    ensures Expanded(Tokens(before + " %" + [c] + " " + after, ' '), args) ==
            Expanded(Tokens(before, ' '), args) + (if c in "fFuU" then args else [])
            + Expanded(Tokens(after, ' '), args)
  {
    hide Tokens, Expanded;
    var code := "%" + [c];
    assert before + " %" + [c] + " " + after == (before + " " + code) + " " + after;
    TokensAreSeparated(before + " " + code, after, ' ');
    TokensAreSeparated(before, code, ' ');
    TokensOfWord(code, ' ');
    ExpandedAppend(Tokens(before, ' ') + [code], Tokens(after, ' '), args);
    ExpandedAppend(Tokens(before, ' '), [code], args);
    ExpandedCons(code, [], args);
    NoneExpanded(args);
    assert [code] + [] == [code];
  }

  /** Tokens that are not two characters of which the first is '%' are passed on as they are. */
  lemma {:induction false} LiteralsStay(tokens: seq<string>, args: seq<string>)
    requires forall t :: t in tokens ==> |t| != 2 || t[0] != '%'
    ensures Expanded(tokens, args) == tokens
  {
    if tokens != [] {
      LiteralsStay(tokens[1..], args);
    }
  }

  /** Such a word anywhere in an Exec line stays in its place. */
  lemma LiteralInPlace(before: string, word: string, after: string, args: seq<string>)
    requires word != "" && ' ' !in word && (|word| != 2 || word[0] != '%')
    ensures Expanded(Tokens(before + " " + word + " " + after, ' '), args) ==
            Expanded(Tokens(before, ' '), args) + [word] + Expanded(Tokens(after, ' '), args)
  {
    hide Tokens, Expanded;
    TokensAreSeparated(before + " " + word, after, ' ');
    TokensAreSeparated(before, word, ' ');
    TokensOfWord(word, ' ');
    ExpandedAppend(Tokens(before, ' ') + [word], Tokens(after, ' '), args);
    ExpandedAppend(Tokens(before, ' '), [word], args);
    LiteralsStay([word], args);
  }

  /** Words, each after a space. */
  function Spaced(words: seq<string>): string {
    if words == [] then "" else " " + words[0] + Spaced(words[1..])
  }

  predicate AreTokens(words: seq<string>) { forall w :: w in words ==> w != "" && ' ' !in w }

  lemma FirstToken(words: seq<string>)
    requires AreTokens(words) && words != []
    ensures words[0] != "" && ' ' !in words[0] && AreTokens(words[1..])
  {
    assert words[0] in words;
    forall w | w in words[1..]
      ensures w != "" && ' ' !in w
    {
      var k :| 0 <= k < |words[1..]| && words[1..][k] == w;
      assert words[k + 1] in words;
    }
  }

  lemma {:induction false} WordThenSpaced(word: string, rest: seq<string>)
    requires word != "" && ' ' !in word && AreTokens(rest)
    ensures Tokens(word + Spaced(rest), ' ') == [word] + rest
    decreases |rest|
  {
    hide Tokens, Spaced, AreTokens;
    TokensOfWord(word, ' ');
    if rest == [] {
      NoneSpaced(word);
    } else {
      FirstToken(rest);
      SpacedStep(word, rest);
      WordThenSpaced(rest[0], rest[1..]);
      TokensAreSeparated(word, rest[0] + Spaced(rest[1..]), ' ');
      assert [word] + ([rest[0]] + rest[1..]) == [word] + rest;
    }
  }

  lemma NoneSpaced(word: string)
    ensures word + Spaced([]) == word
  {
  }

  lemma SpacedStep(before: string, words: seq<string>)
    requires words != []
    ensures before + Spaced(words) == before + [' '] + (words[0] + Spaced(words[1..]))
    ensures Spaced(words) == " " + (words[0] + Spaced(words[1..]))
  {
  }

  lemma TokensOfSpaced(words: seq<string>)
    requires AreTokens(words)
    ensures Tokens(Spaced(words), ' ') == words
    ensures words != [] ==> Spaced(words) != "" && Spaced(words)[0] == ' '
  {
    hide Tokens, AreTokens;
    NoTokens(' ');
    if words != [] {
      FirstToken(words);
      SpacedStep("", words);
      hide Spaced;
      var line := words[0] + Spaced(words[1..]);
      WordThenSpaced(words[0], words[1..]);
      TokensAreSeparated("", line, ' ');
      assert "" + [' '] + line == Spaced(words);
      assert [] + ([words[0]] + words[1..]) == words;
    }
  }

  /** An Exec line of a program and words that are no codes, with arguments of which none looks like an option: the
      application gets the desktop file's path and exactly those words, and none of the arguments. */
  lemma PlainLine(program: string, words: seq<string>, argv: seq<string>)
    requires program != "" && forall c :: c in program ==> !(c as int == 32 || 9 <= c as int <= 13)
    requires forall w :: w in words ==> w != "" && ' ' !in w && (|w| != 2 || w[0] != '%')
    requires argv != [] && forall i :: 1 <= i < |argv| ==> argv[i] == "" || argv[i][0] != '-'
    ensures Program(program + Spaced(words)) == program
    ensures NewArgv(program + Spaced(words), argv) == [argv[0]] + words
  {
    hide Tokens, Expanded, Program, AfterProgram;
    TokensOfSpaced(words);
    ProgramIsFirstWord("", program, Spaced(words));
    assert "" + program + Spaced(words) == program + Spaced(words);
    LiteralsStay(words, argv[1..]);
  }

  /** An argument that looks like an option leaves all of them as they are. */
  lemma OptionStops(exec: string, argv: seq<string>, i: nat)
    requires 1 <= i < |argv| && argv[i] != "" && argv[i][0] == '-'
    ensures NewArgv(exec, argv) == argv
  {
  }
}
