/** Commands written with as few parentheses as the grammar allows: `;` binds weakest, then `&`, then `|`, which
    groups to the right, then redirections. */
module ShellShow {
  import opened Shell

  /** How tightly a command binds: 0 for a list, 1 for `&`, 2 for a pipe, 3 for the rest. */
  function Level(t: Cmd<string>): nat {
    match t
    case List(_, _) => 0
    case Back(_) => 1
    case Pipe(_, _) => 2
    case _ => 3
  }

  /** The command where level `lv` is wanted; parentheses only around what binds less tightly. */
  function Show(t: Cmd<string>, lv: nat): string
    decreases t, if Level(t) < lv then 1 else 0
  {
    if Level(t) < lv then "(" + (Show(t, 0) + ")")
    else
      match t
      case Exec(argv) => RenderArgs(argv)
      case Redir(d, f, m, _) => Show(d, 3) + ((if m == 0 then "<" else ">") + f)
      case Pipe(l, r) => Show(l, 3) + ("|" + Show(r, 2))
      case Back(d) => Show(d, 1) + "&"
      case List(l, r) => Show(l, 1) + (";" + Show(r, 0))
  }

  /** The line ends at `j`, or one of `stops` follows. */
  predicate Ends(s: string, j: nat, stops: set<char>) { j <= |s| && (j < |s| ==> s[j] in stops) }

  const AFTER_LINE: set<char> := {')'}
  const AFTER_BACK: set<char> := {')', ';'}
  const AFTER_PIPE: set<char> := {')', ';', '&'}
  const AFTER_EXEC: set<char> := {')', ';', '&', '|'}
  const AFTER_WORD: set<char> := {')', ';', '&', '|', '<', '>'}

  lemma EndsClear(s: string, j: nat)
    requires Ends(s, j, AFTER_WORD)
    ensures Clear(s, j) && (j < |s| ==> !IsWordChar(s[j]))
  {
  }

  // ---- How a rendering begins

  lemma {:induction false} ShowStart(t: Cmd<string>, lv: nat)
    requires Legal(t)
    ensures |Show(t, lv)| > 0 ==> !IsSpace(Show(t, lv)[0])
    decreases t, if Level(t) < lv then 1 else 0
  {
    if Level(t) >= lv {
      match t
      case Exec(argv) => ArgsClear(argv);
      case Redir(d, _, _, _) => ShowStart(d, 3);
      case Pipe(l, _) => ShowStart(l, 3);
      case Back(d) => ShowStart(d, 1);
      case List(l, _) => ShowStart(l, 1);
    }
  }

  /** Behind a symbol, a command and what may follow it there is no blank. */
  lemma ShowClear(s: string, i: nat, t: Cmd<string>, lv: nat)
    requires Legal(t) && At(s, i, Show(t, lv)) && Ends(s, i + |Show(t, lv)|, AFTER_WORD)
    ensures Clear(s, i)
  {
    ShowStart(t, lv);
    if |Show(t, lv)| > 0 { AtChar(s, i, Show(t, lv), 0); }
  }

  // ---- Arguments

  /** What parseexec does after the redirections behind its last argument, the `argc`-th. */
  function Rest(s: string, r: Outcome<Parsed>, argc: nat): Outcome<Parsed>
    requires r.Ok? ==> r.value.at <= |s|
  {
    if r.Panic? then r else Args(s, r.value.at, r.value.cmd, argc)
  }

  lemma LastToken(s: string, i: nat, w: string)
    requires LegalWord(w) && At(s, i, w) && Ends(s, i + |w|, AFTER_WORD)
    ensures i + |w| <= |s| && GetToken(s, i) == Token('a', i, i + |w|, i + |w|) && TextOf(s, Word(i, i + |w|)) == w
    ensures !Peek(s, i, {'|', ')', '&', ';'})
  {
    hide GetToken, Peek, SkipSpace, WordEnd, At, TextOf;
    EndsClear(s, i + |w|);
    AtChar(s, i, w, 0);
    WordToken(s, i, w);
    PeekHere(s, i, {'|', ')', '&', ';'});
    PeekHere(s, i + |w|, {});
  }

  /** A turn of the argument loop that finds a word. */
  lemma WordArg(s: string, i: nat, c: Cmd<Word>, argc: nat, q: nat, eq: nat, next: nat)
    requires i <= |s| && next <= |s| && !Peek(s, i, {'|', ')', '&', ';'}) && argc + 1 < MAXARGS
    requires GetToken(s, i) == Token('a', q, eq, next)
    ensures Args(s, i, c, argc) == Rest(s, Redirs(s, next, AddArg(c, Word(q, eq))), argc + 1)
  {
    hide GetToken, Redirs, Peek, SkipSpace, AddArg;
  }

  lemma LastArg(s: string, i: nat, w: string, acc: seq<Word>)
    requires LegalWord(w) && At(s, i, w) && |acc| + 1 < MAXARGS && Ends(s, i + |w|, AFTER_WORD)
    ensures
      var c := Exec(acc + [Word(i, i + |w|)]);
      Args(s, i, Exec(acc), |acc|) == Rest(s, Redirs(s, i + |w|, c), |acc| + 1)
    ensures TextOf(s, Word(i, i + |w|)) == w
  {
    hide GetToken, Redirs, Peek, At, TextOf, Args, LegalWord, Ends, Rest;
    LastToken(s, i, w);
    WordArg(s, i, Exec(acc), |acc|, i, i + |w|, i + |w|);
  }

  lemma {:induction false} ArgsThen(s: string, i: nat, argv: seq<string>, acc: seq<Word>) returns (ws: seq<Word>)
    requires argv != [] && (forall k :: 0 <= k < |argv| ==> LegalWord(argv[k])) && |acc| + |argv| < MAXARGS
    requires At(s, i, RenderArgs(argv)) && Ends(s, i + |RenderArgs(argv)|, AFTER_WORD)
    ensures |ws| == |acc| + |argv| && TextsOf(s, ws) == TextsOf(s, acc) + argv
    ensures Args(s, i, Exec(acc), |acc|) == Rest(s, Redirs(s, i + |RenderArgs(argv)|, Exec(ws)), |ws|)
    decreases |argv|
  {
    hide Args, At, SkipSpace, RenderArgs, LegalWord, TextsOf, TextOf, IsWordChar, Clear, Redirs, Ends;
    ArgsCons(argv);
    var w := argv[0];
    var v := Word(i, i + |w|);
    TextsAdd(s, acc, v);
    if |argv| == 1 {
      LastArg(s, i, w, acc);
      ws := acc + [v];
      assert argv == [w];
    } else {
      NextArg(s, i, argv, acc);
      ws := ArgsThen(s, i + |w| + 1, argv[1..], acc + [v]);
      assert TextsOf(s, acc) + [w] + argv[1..] == TextsOf(s, acc) + argv;
    }
  }

  lemma NextArg(s: string, i: nat, argv: seq<string>, acc: seq<Word>)
    requires |argv| > 1 && (forall k :: 0 <= k < |argv| ==> LegalWord(argv[k])) && |acc| + 1 < MAXARGS
    requires At(s, i, RenderArgs(argv))
    ensures
      var j := i + |argv[0]| + 1;
      && At(s, j, RenderArgs(argv[1..])) && j + |RenderArgs(argv[1..])| == i + |RenderArgs(argv)|
      && Args(s, i, Exec(acc), |acc|) == Args(s, j, Exec(acc + [Word(i, j - 1)]), |acc| + 1)
      && TextOf(s, Word(i, j - 1)) == argv[0]
  {
    hide Args, At, SkipSpace, RenderArgs, TextOf;
    var w, rest := argv[0], argv[1..];
    var j := i + |w|;
    ArgsCons(argv);
    ArgsClear(rest);
    AtParts(s, i, w, " " + RenderArgs(rest));
    AtParts(s, j, " ", RenderArgs(rest));
    AtChar(s, j, " ", 0);
    AtChar(s, j + 1, RenderArgs(rest), 0);
    OneSpace(s, j);
    ArgStep(s, i, w, acc, j + 1);
  }

  lemma NoMoreArgs(s: string, j: nat, c: Cmd<Word>, argc: nat)
    requires Ends(s, j, AFTER_EXEC)
    ensures Redirs(s, j, c) == Ok(Parsed(c, j)) && Args(s, j, c, argc) == Ok(Parsed(c, j))
  {
    PeekHere(s, j, {'|', ')', '&', ';'});
    NoRedirs(s, j, c);
  }

  // ---- Redirections

  lemma RedirMore(s: string, j: nat, c: Cmd<Word>, op: string, w: string)
    requires (op == "<" || op == ">") && LegalWord(w) && At(s, j, op) && At(s, j + 1, w)
    requires Ends(s, j + 1 + |w|, AFTER_WORD)
    ensures
      var e := j + 1 + |w|;
      Redirs(s, j, c) == Redirs(s, e, Redirected(c, op[0], Word(j + 1, e))) && TextOf(s, Word(j + 1, e)) == w
  {
    hide SkipSpace, Peek, GetToken, At, Redirs, TextOf;
    var e := j + 1 + |w|;
    EndsClear(s, e);
    AtChar(s, j + 1, w, 0);
    assert IsWordChar(w[0]);
    RedirToken(s, j, op);
    PeekHere(s, j, {'<', '>'});
    WordToken(s, j + 1, w);
    PeekHere(s, e, {});
    RedirsStep(s, j, c);
  }

  lemma RedirsStep(s: string, j: nat, c: Cmd<Word>)
    requires j <= |s| && Peek(s, j, {'<', '>'})
    ensures
      var op := GetToken(s, j);
      var file := GetToken(s, op.next);
      file.kind == 'a' ==> Redirs(s, j, c) == Redirs(s, file.next, Redirected(c, op.kind, Word(file.q, file.eq)))
  {
    hide SkipSpace, Peek, GetToken;
  }

  /** What parseexec does with what it has read up to `j`: a block in parentheses, or `argc` arguments. */
  function Then(s: string, j: nat, c: Cmd<Word>, block: bool, argc: nat): Outcome<Parsed>
    requires j <= |s|
  {
    if block then Redirs(s, j, c) else Rest(s, Redirs(s, j, c), argc)
  }

  lemma ExecStarts(s: string, i: nat)
    requires Clear(s, i) && (i < |s| ==> s[i] != '(')
    ensures ParseExec(s, i) == Rest(s, Redirs(s, i, Exec([])), 0)
  {
    hide Redirs, Args, GetToken, ParseLine;
    PeekHere(s, i, {'('});
  }

  lemma {:induction false} ExecThen(s: string, i: nat, t: Cmd<string>)
    returns (c: Cmd<Word>, block: bool, argc: nat)
    requires Legal(t) && At(s, i, Show(t, 3)) && Ends(s, i + |Show(t, 3)|, AFTER_WORD)
    ensures i + |Show(t, 3)| <= |s| && ParseExec(s, i) == Then(s, i + |Show(t, 3)|, c, block, argc) && Text(s, c) == t
    decreases t, if Level(t) < 3 then 6 else 0
  {
    hide At, ParseExec, Redirs, Args, Show, Then, Ends;
    if Level(t) < 3 {
      c := BlockThen(s, i, t);
      block, argc := true, 0;
    } else if t.Exec? {
      c, argc := ArgsExec(s, i, t.argv);
      block := false;
    } else {
      var op := if t.mode == 0 then "<" else ">";
      RedirParts(s, i, t, op);
      var j := i + |Show(t.cmd, 3)|;
      var d;
      d, block, argc := ExecThen(s, i, t.cmd);
      RedirMore(s, j, d, op, t.file);
      c := Redirected(d, op[0], Word(j + 1, j + 1 + |t.file|));
      ThenSame(s, j, d, j + 1 + |t.file|, c, block, argc);
    }
  }

  lemma ThenSame(s: string, j: nat, d: Cmd<Word>, e: nat, c: Cmd<Word>, block: bool, argc: nat)
    requires j <= |s| && e <= |s| && Redirs(s, j, d) == Redirs(s, e, c)
    ensures Then(s, j, d, block, argc) == Then(s, e, c, block, argc)
  {
  }

  lemma RedirParts(s: string, i: nat, t: Cmd<string>, op: string)
    requires t.Redir? && Legal(t) && op == (if t.mode == 0 then "<" else ">")
    requires At(s, i, Show(t, 3)) && Ends(s, i + |Show(t, 3)|, AFTER_WORD)
    ensures
      var j := i + |Show(t.cmd, 3)|;
      && At(s, i, Show(t.cmd, 3)) && Ends(s, j, AFTER_WORD) && At(s, j, op) && At(s, j + 1, t.file)
      && j + 1 + |t.file| == i + |Show(t, 3)| <= |s|
      && LegalWord(t.file) && Legal(t.cmd)
  {
    hide At;
    var d, j := Show(t.cmd, 3), i + |Show(t.cmd, 3)|;
    AtParts(s, i, d, op + t.file);
    AtParts(s, j, op, t.file);
    AtChar(s, j, op, 0);
    AtEnd(s, i, Show(t, 3));
  }

  lemma ArgsExec(s: string, i: nat, argv: seq<string>) returns (c: Cmd<Word>, argc: nat)
    requires Legal(Exec(argv)) && At(s, i, Show(Exec(argv), 3)) && Ends(s, i + |Show(Exec(argv), 3)|, AFTER_WORD)
    ensures i + |Show(Exec(argv), 3)| <= |s|
    ensures ParseExec(s, i) == Then(s, i + |Show(Exec(argv), 3)|, c, false, argc) && Text(s, c) == Exec(argv)
  {
    hide At, Redirs, Args, ParseExec;
    ArgsClear(argv);
    if argv == [] {
      c, argc := Exec([]), 0;
      EndsClear(s, i);
      ExecStarts(s, i);
    } else {
      AtEnd(s, i, RenderArgs(argv));
      AtChar(s, i, RenderArgs(argv), 0);
      hide RenderArgs;
      ExecStarts(s, i);
      NoRedirs(s, i, Exec([]));
      var ws := ArgsThen(s, i, argv, []);
      c, argc := Exec(ws), |ws|;
      assert TextsOf(s, ws) == argv;
    }
  }

  lemma {:induction false} BlockThen(s: string, i: nat, t: Cmd<string>) returns (c: Cmd<Word>)
    requires Level(t) < 3 && Legal(t) && At(s, i, Show(t, 3)) && Ends(s, i + |Show(t, 3)|, AFTER_WORD)
    ensures i + |Show(t, 3)| <= |s| && ParseExec(s, i) == Then(s, i + |Show(t, 3)|, c, true, 0) && Text(s, c) == t
    decreases t, 5
  {
    hide At, Redirs, ParseLine, SkipSpace, Peek, GetToken, Show, Text;
    BlockSplits(s, i, t);
    var j := i + 1 + |Show(t, 0)|;
    c := LineAt(s, i + 1, t);
    PeekHere(s, i, {'('});
    SymbolToken(s, i);
    PeekHere(s, j, {')'});
    SymbolToken(s, j);
  }

  lemma BlockSplits(s: string, i: nat, t: Cmd<string>)
    requires Level(t) < 3 && Legal(t) && At(s, i, Show(t, 3)) && Ends(s, i + |Show(t, 3)|, AFTER_WORD)
    ensures i < |s| && s[i] == '(' && Clear(s, i + 1) && At(s, i + 1, Show(t, 0))
    ensures
      var j := i + 1 + |Show(t, 0)|;
      j < |s| && s[j] == ')' && j + 1 == i + |Show(t, 3)| && Clear(s, j + 1) && Ends(s, j, AFTER_LINE)
  {
    hide At;
    var r := Show(t, 0);
    assert Show(t, 3) == "(" + (r + ")");
    hide Show;
    AtParts(s, i, "(", r + ")");
    AtParts(s, i + 1, r, ")");
    AtChar(s, i, "(", 0);
    AtChar(s, i + 1 + |r|, ")", 0);
    EndsClear(s, i + |Show(t, 3)|);
    ShowClear(s, i + 1, t, 0);
  }

  // ---- The levels

  lemma {:induction false} ExecAt(s: string, i: nat, t: Cmd<string>) returns (c: Cmd<Word>)
    requires Legal(t) && At(s, i, Show(t, 3)) && Ends(s, i + |Show(t, 3)|, AFTER_EXEC)
    ensures ParseExec(s, i) == Ok(Parsed(c, i + |Show(t, 3)|)) && Text(s, c) == t
    decreases t, if Level(t) < 3 then 7 else 1
  {
    hide At, ParseExec, Redirs, Args, Show;
    var block, argc;
    c, block, argc := ExecThen(s, i, t);
    NoMoreArgs(s, i + |Show(t, 3)|, c, argc);
  }

  lemma SameShow(t: Cmd<string>, lv: nat, hi: nat)
    requires lv <= hi <= 3 && (Level(t) < lv || hi <= Level(t))
    ensures Show(t, lv) == Show(t, hi)
  {
  }

  lemma {:induction false} PipeAt(s: string, i: nat, t: Cmd<string>) returns (c: Cmd<Word>)
    requires Legal(t) && At(s, i, Show(t, 2)) && Ends(s, i + |Show(t, 2)|, AFTER_PIPE)
    ensures ParsePipe(s, i) == Ok(Parsed(c, i + |Show(t, 2)|)) && Text(s, c) == t
    decreases t, if Level(t) < 2 then 8 else 2
  {
    hide At, ParseExec, ParsePipe;
    var e := i + |Show(t, 2)|;
    if t.Pipe? {
      var j := i + |Show(t.left, 3)|;
      AtParts(s, i, Show(t.left, 3), "|" + Show(t.right, 2));
      AtParts(s, j, "|", Show(t.right, 2));
      AtChar(s, j, "|", 0);
      hide Show;
      ShowClear(s, j + 1, t.right, 2);
      var l := ExecAt(s, i, t.left);
      var r := PipeAt(s, j + 1, t.right);
      PipeGoes(s, i, l, j, r, e);
      c := Pipe(l, r);
    } else {
      SameShow(t, 2, 3);
      hide Show;
      c := ExecAt(s, i, t);
      EndsClear(s, e);
      PipeStops(s, i, c, e);
    }
  }

  /** The pipe at `i`, and the command that backs see from `j` on. */
  lemma {:induction false} BackThen(s: string, i: nat, t: Cmd<string>) returns (l: Parsed, c: Cmd<Word>)
    requires Legal(t) && At(s, i, Show(t, 1)) && Ends(s, i + |Show(t, 1)|, AFTER_PIPE)
    ensures i + |Show(t, 1)| <= |s| && ParsePipe(s, i) == Ok(l) && l.at <= |s|
    ensures Backs(s, l.at, l.cmd) == Backs(s, i + |Show(t, 1)|, c) && Text(s, c) == t
    decreases t, if Level(t) < 1 then 9 else 3
  {
    hide At, ParsePipe, Backs;
    if t.Back? {
      var j := i + |Show(t.cmd, 1)|;
      AtParts(s, i, Show(t.cmd, 1), "&");
      AtChar(s, j, "&", 0);
      hide Show;
      var d;
      l, d := BackThen(s, i, t.cmd);
      c := Back(d);
      OneBack(s, j, d);
    } else {
      SameShow(t, 1, 2);
      hide Show;
      c := PipeAt(s, i, t);
      l := Parsed(c, i + |Show(t, 1)|);
    }
  }

  lemma OneBack(s: string, j: nat, c: Cmd<Word>)
    requires j < |s| && s[j] == '&' && Clear(s, j + 1)
    ensures Backs(s, j, c) == Backs(s, j + 1, Back(c))
  {
    hide SkipSpace, Peek, GetToken;
    PeekHere(s, j, {'&'});
    SymbolToken(s, j);
  }

  lemma {:induction false} LineAt(s: string, i: nat, t: Cmd<string>) returns (c: Cmd<Word>)
    requires Legal(t) && At(s, i, Show(t, 0)) && Ends(s, i + |Show(t, 0)|, AFTER_LINE)
    ensures ParseLine(s, i) == Ok(Parsed(c, i + |Show(t, 0)|)) && Text(s, c) == t
    decreases t, 4
  {
    hide At, ParseLine, ParsePipe, Backs;
    var l;
    if t.List? {
      var j := i + |Show(t.left, 1)|;
      AtParts(s, i, Show(t.left, 1), ";" + Show(t.right, 0));
      AtParts(s, j, ";", Show(t.right, 0));
      AtChar(s, j, ";", 0);
      var e := i + |Show(t, 0)|;
      hide Show;
      ShowClear(s, j + 1, t.right, 0);
      var a, r;
      l, a := BackThen(s, i, t.left);
      r := LineAt(s, j + 1, t.right);
      NoBacks(s, j, a);
      LineSplits(s, i, l, j, a, r, e);
      c := List(a, r);
    } else {
      SameShow(t, 0, 1);
      var e := i + |Show(t, 0)|;
      hide Show;
      l, c := BackThen(s, i, t);
      EndsClear(s, e);
      NoBacks(s, e, c);
      LineEnds(s, i, l, e, c);
    }
  }

  lemma LineSplits(s: string, i: nat, l: Parsed, j: nat, a: Cmd<Word>, r: Cmd<Word>, e: nat)
    requires i <= |s| && ParsePipe(s, i) == Ok(l) && Backs(s, l.at, l.cmd) == Parsed(a, j)
    requires j < |s| && s[j] == ';' && Clear(s, j + 1) && ParseLine(s, j + 1) == Ok(Parsed(r, e))
    ensures ParseLine(s, i) == Ok(Parsed(List(a, r), e))
  {
    hide ParsePipe, SkipSpace, Peek, GetToken, Backs;
    PeekHere(s, j, {';'});
    SymbolToken(s, j);
  }

  lemma LineEnds(s: string, i: nat, l: Parsed, e: nat, c: Cmd<Word>)
    requires i <= |s| && ParsePipe(s, i) == Ok(l) && Backs(s, l.at, l.cmd) == Parsed(c, e) && Ends(s, e, AFTER_LINE)
    ensures ParseLine(s, i) == Ok(Parsed(c, e))
  {
    hide ParsePipe, SkipSpace, Peek, GetToken, Backs;
    PeekHere(s, e, {';'});
  }

  /** Any command, written with as few parentheses as possible, is read back. */
  lemma ShowReadsBack(t: Cmd<string>)
    requires Legal(t)
    ensures ParseCmd(Show(t, 0)).Ok? && Text(Show(t, 0), ParseCmd(Show(t, 0)).value) == t
  {
    var s := Show(t, 0);
    assert s[0..0 + |s|] == s;
    hide Show;
    var c := LineAt(s, 0, t);
  }

  // ---- Lines that are no commands

  lemma {:induction false} ArgsTooMany(s: string, i: nat, argv: seq<string>, acc: seq<Word>)
    requires (forall k :: 0 <= k < |argv| ==> LegalWord(argv[k])) && |acc| < MAXARGS <= |acc| + |argv|
    requires At(s, i, RenderArgs(argv)) && Ends(s, i + |RenderArgs(argv)|, AFTER_WORD)
    ensures Args(s, i, Exec(acc), |acc|) == Panic("too many args")
    decreases |argv|
  {
    hide Args, At, RenderArgs, LegalWord, Ends;
    if |acc| + 1 >= MAXARGS {
      TooMany(s, i, argv, acc);
    } else {
      NextArg(s, i, argv, acc);
      ArgsTooMany(s, i + |argv[0]| + 1, argv[1..], acc + [Word(i, i + |argv[0]|)]);
    }
  }

  lemma TooMany(s: string, i: nat, argv: seq<string>, acc: seq<Word>)
    requires argv != [] && (forall k :: 0 <= k < |argv| ==> LegalWord(argv[k])) && |acc| + 1 == MAXARGS
    requires At(s, i, RenderArgs(argv)) && Ends(s, i + |RenderArgs(argv)|, AFTER_WORD)
    ensures Args(s, i, Exec(acc), |acc|) == Panic("too many args")
  {
    hide Args, At, SkipSpace, RenderArgs, GetToken, WordEnd, Peek;
    var w := argv[0];
    ArgsCons(argv);
    assert LegalWord(w);
    if |argv| == 1 {
      EndsClear(s, i + |w|);
    } else {
      AtParts(s, i, w, " " + RenderArgs(argv[1..]));
      AtParts(s, i + |w|, " ", RenderArgs(argv[1..]));
      AtChar(s, i + |w|, " ", 0);
    }
    AtChar(s, i, w, 0);
    WordToken(s, i, w);
    PeekHere(s, i, {'|', ')', '&', ';'});
    ArgsStep(s, i, Exec(acc), |acc|);
  }

  lemma ExecPanics(s: string, m: string)
    requires ParseExec(s, 0) == Panic(m)
    ensures ParseCmd(s) == Panic(m)
  {
    hide ParseExec;
    assert ParsePipe(s, 0) == Panic(m);
    hide ParsePipe;
    assert ParseLine(s, 0) == Panic(m);
  }

  lemma WordsTooMany(argv: seq<string>)
    requires |argv| >= 10 && forall k :: 0 <= k < |argv| ==> LegalWord(argv[k])
    ensures ParseCmd(RenderArgs(argv)) == Panic("too many args")
  {
    hide RenderArgs, Args, Redirs, At, ParseExec, ParseCmd, LegalWord, SkipSpace;
    var s := RenderArgs(argv);
    ArgsClear(argv);
    AtWhole(s);
    ArgsTooMany(s, 0, argv, []);
    ExecStarts(s, 0);
    NoRedirs(s, 0, Exec([]));
    ExecPanics(s, "too many args");
  }

  /** Words alone are one command with them as arguments, up to nine of them. */
  lemma WordsAlone(argv: seq<string>)
    requires forall k :: 0 <= k < |argv| ==> LegalWord(argv[k])
    ensures
      var s := RenderArgs(argv);
      if |argv| < 10 then ParseCmd(s).Ok? && Text(s, ParseCmd(s).value) == Exec(argv)
      else ParseCmd(s) == Panic("too many args")
  {
    hide RenderArgs, ParseCmd, LegalWord;
    if |argv| < 10 {
      assert Show(Exec(argv), 0) == RenderArgs(argv);
      ShowReadsBack(Exec(argv));
    } else {
      WordsTooMany(argv);
    }
  }

  lemma AtWhole(s: string)
    ensures At(s, 0, s)
  {
    assert s[0..0 + |s|] == s;
  }

  /** A command and a closing parenthesis too many. */
  lemma TooManyClosed(t: Cmd<string>)
    requires Legal(t)
    ensures ParseCmd(Show(t, 0) + ")") == Panic("syntax")
  {
    var r := Show(t, 0);
    var s := r + ")";
    assert s[0..0 + |r|] == r;
    hide Show;
    var c := LineAt(s, 0, t);
    PeekHere(s, |r|, {});
  }

  /** A command with an opening parenthesis that nothing closes. */
  lemma NotClosed(t: Cmd<string>)
    requires Legal(t)
    ensures ParseCmd("(" + Show(t, 0)) == Panic("syntax - missing )")
  {
    var r := Show(t, 0);
    var s := "(" + r;
    assert s[1..1 + |r|] == r && s[0] == '(';
    hide Show, ParseLine;
    ShowClear(s, 1, t, 0);
    var c := LineAt(s, 1, t);
    OpenPanics(s, c);
  }

  lemma OpenPanics(s: string, c: Cmd<Word>)
    requires |s| > 0 && s[0] == '(' && Clear(s, 1) && ParseLine(s, 1) == Ok(Parsed(c, |s|))
    ensures ParseLine(s, 0) == Panic("syntax - missing )")
  {
    hide SkipSpace, Peek, GetToken, Backs;
    PeekHere(s, 0, {'('});
    SymbolToken(s, 0);
    PeekHere(s, |s|, {')'});
    assert ParseExec(s, 0) == Panic("syntax - missing )");
  }

  /** A redirection without a file. */
  lemma NoFile(t: Cmd<string>, op: char)
    requires Legal(t) && op in {'<', '>'}
    ensures ParseCmd(Show(t, 3) + [op]) == Panic("missing file for redirection")
  {
    hide Show, ParseExec, ParseCmd, Redirs, Args, Text, Legal;
    var r := Show(t, 3);
    var s := r + [op];
    assert s[0..0 + |r|] == r && s[|r|] == op;
    var c, block, argc := ExecThen(s, 0, t);
    FilePanics(s, |r|, c);
    ExecPanics(s, "missing file for redirection");
  }

  lemma FilePanics(s: string, j: nat, c: Cmd<Word>)
    requires j + 1 == |s| && s[j] in {'<', '>'}
    ensures Redirs(s, j, c) == Panic("missing file for redirection")
  {
    PeekHere(s, j, {'<', '>'});
    SymbolToken(s, j);
  }
}
