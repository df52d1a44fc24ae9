/** A simple command: arguments and redirections in any order. */
module ShellItems {
  import opened Shell
  import opened ShellShow

  datatype Item = Arg(w: string) | In(w: string) | Out(w: string)

  function Written(x: Item): string {
    match x
    case Arg(w) => w
    case In(w) => "<" + w
    case Out(w) => ">" + w
  }

  /** The items with a blank between any two. */
  function Line(xs: seq<Item>): string {
    if xs == [] then "" else if |xs| == 1 then Written(xs[0]) else Written(xs[0]) + (" " + Line(xs[1..]))
  }

  /** The arguments, in their order. */
  function ArgsIn(xs: seq<Item>): seq<string> {
    if xs == [] then []
    else
      var x, a := xs[|xs| - 1], ArgsIn(xs[..|xs| - 1]);
      if x.Arg? then a + [x.w] else a
  }

  /** The command `t` with the redirections, the first one innermost: `<` opens for reading as descriptor 0, `>`
      creates and opens for writing as descriptor 1. */
  function Around(t: Cmd<string>, xs: seq<Item>): Cmd<string> {
    if xs == [] then t
    else
      var x, r := xs[|xs| - 1], Around(t, xs[..|xs| - 1]);
      if x.In? then Redir(r, x.w, 0, 0) else if x.Out? then Redir(r, x.w, 0x201, 1) else r
  }

  ghost predicate ItemsOk(xs: seq<Item>) { forall k :: 0 <= k < |xs| ==> LegalWord(xs[k].w) }

  // ---- How the line begins

  lemma LineStart(xs: seq<Item>)
    requires ItemsOk(xs) && xs != []
    ensures |Line(xs)| > 0 && Line(xs)[0] == Written(xs[0])[0]
    ensures if xs[0].Arg? then IsWordChar(Line(xs)[0]) else Line(xs)[0] == if xs[0].In? then '<' else '>'
  {
    assert LegalWord(xs[0].w);
  }

  lemma LineClear(s: string, i: nat, xs: seq<Item>)
    requires ItemsOk(xs) && At(s, i, Line(xs)) && i + |Line(xs)| == |s|
    ensures Clear(s, i) && (i < |s| ==> s[i] != '(')
    ensures xs != [] ==> i < |s| && (s[i] in {'<', '>'} <==> !xs[0].Arg?)
  {
    hide Line;
    if xs != [] {
      LineStart(xs);
      AtChar(s, i, Line(xs), 0);
    } else {
      assert Line(xs) == "" by { NoLine(); }
    }
  }

  lemma NoLine()
    ensures Line([]) == ""
  {
  }

  /** Where the first item ends and the next begins. */
  lemma FirstItem(s: string, i: nat, xs: seq<Item>) returns (next: nat)
    requires ItemsOk(xs) && xs != [] && At(s, i, Line(xs)) && i + |Line(xs)| == |s|
    ensures At(s, i, Written(xs[0])) && At(s, next, Line(xs[1..])) && next + |Line(xs[1..])| == |s|
    ensures
      var j := i + |Written(xs[0])|;
      j <= |s| && next == SkipSpace(s, j) && Clear(s, next) && (j < |s| ==> !IsWordChar(s[j]))
  {
    hide At, SkipSpace;
    var w, rest := Written(xs[0]), xs[1..];
    var j := i + |w|;
    if |xs| == 1 {
      next := j;
      PeekHere(s, j, {});
      NoLine();
      AtNothing(s, j);
    } else {
      AtParts(s, i, w, " " + Line(rest));
      AtParts(s, j, " ", Line(rest));
      AtChar(s, j, " ", 0);
      next := j + 1;
      hide Line;
      LineClear(s, j + 1, rest);
      OneSpace(s, j);
    }
  }

  // ---- One item

  lemma RedirItem(s: string, i: nat, op: string, w: string, c: Cmd<Word>, next: nat)
    requires (op == "<" || op == ">") && LegalWord(w) && At(s, i, op + w)
    requires var j := i + |op + w|; j <= |s| && next == SkipSpace(s, j) && (j < |s| ==> !IsWordChar(s[j]))
    ensures
      var word := Word(i + 1, i + |op + w|);
      Redirs(s, i, c) == Redirs(s, next, Redirected(c, op[0], word)) && TextOf(s, word) == w
  {
    hide SkipSpace, Peek, GetToken, At, Redirs, TextOf, WordEnd;
    AtParts(s, i, op, w);
    AtChar(s, i + 1, w, 0);
    assert IsWordChar(w[0]);
    RedirToken(s, i, op);
    PeekHere(s, i, {'<', '>'});
    WordToken(s, i + 1, w);
    RedirsStep(s, i, c);
  }

  lemma ArgItem(s: string, i: nat, w: string, c: Cmd<Word>, argc: nat, next: nat)
    requires LegalWord(w) && At(s, i, w) && argc + 1 < MAXARGS
    requires var j := i + |w|; j <= |s| && next == SkipSpace(s, j) && (j < |s| ==> !IsWordChar(s[j]))
    ensures
      var word := Word(i, i + |w|);
      Rest(s, Redirs(s, i, c), argc) == Rest(s, Redirs(s, next, AddArg(c, word)), argc + 1) && TextOf(s, word) == w
  {
    hide SkipSpace, Peek, GetToken, At, Redirs, TextOf, WordEnd, Args, AddArg;
    AtChar(s, i, w, 0);
    NoRedirs(s, i, c);
    WordToken(s, i, w);
    PeekHere(s, i, {'|', ')', '&', ';'});
    ArgsStep(s, i, c, argc);
  }

  /** An argument goes to the command under the redirections. */
  lemma {:induction false} ArgUnder(s: string, c: Cmd<Word>, w: Word, a: seq<string>, xs: seq<Item>)
    requires Text(s, c) == Around(Exec(a), xs)
    ensures Text(s, AddArg(c, w)) == Around(Exec(a + [TextOf(s, w)]), xs)
    decreases xs
  {
    hide TextsOf, TextOf;
    if xs == [] {
      TextsAdd(s, c.argv, w);
    } else {
      var x, ys := xs[|xs| - 1], xs[..|xs| - 1];
      if x.Arg? { ArgUnder(s, c, w, a, ys); } else { ArgUnder(s, c.cmd, w, a, ys); }
    }
  }

  // ---- The whole line

  lemma {:induction false} ItemsFrom(s: string, i: nat, xs: seq<Item>, k: nat, c: Cmd<Word>) returns (d: Cmd<Word>)
    requires ItemsOk(xs) && k <= |xs| && |ArgsIn(xs)| < MAXARGS
    requires At(s, i, Line(xs[k..])) && i + |Line(xs[k..])| == |s|
    requires Text(s, c) == Around(Exec(ArgsIn(xs[..k])), xs[..k])
    ensures Rest(s, Redirs(s, i, c), |ArgsIn(xs[..k])|) == Ok(Parsed(d, |s|))
    ensures Text(s, d) == Around(Exec(ArgsIn(xs)), xs)
    decreases |xs| - k
  {
    hide At, Redirs, Args, AddArg, Line, Text, Rest, SkipSpace, TextOf, LegalWord, IsWordChar;
    if k == |xs| {
      NoLine();
      assert xs[..k] == xs;
      NothingLeft(s, c, |ArgsIn(xs)|);
      d := c;
    } else {
      var next := FirstItem(s, i, xs[k..]);
      var e := ItemStep(s, i, xs, k, c, next);
      assert xs[k..][1..] == xs[k + 1..];
      d := ItemsFrom(s, next, xs, k + 1, e);
    }
  }

  lemma NothingLeft(s: string, c: Cmd<Word>, argc: nat)
    ensures Rest(s, Redirs(s, |s|, c), argc) == Ok(Parsed(c, |s|))
  {
    NoMoreArgs(s, |s|, c, argc);
  }

  lemma ItemStep(s: string, i: nat, xs: seq<Item>, k: nat, c: Cmd<Word>, next: nat) returns (d: Cmd<Word>)
    requires ItemsOk(xs) && k < |xs| && |ArgsIn(xs)| < MAXARGS && At(s, i, Written(xs[k]))
    requires var j := i + |Written(xs[k])|; j <= |s| && next == SkipSpace(s, j) && (j < |s| ==> !IsWordChar(s[j]))
    requires Text(s, c) == Around(Exec(ArgsIn(xs[..k])), xs[..k])
    ensures Rest(s, Redirs(s, i, c), |ArgsIn(xs[..k])|) == Rest(s, Redirs(s, next, d), |ArgsIn(xs[..k + 1])|)
    ensures Text(s, d) == Around(Exec(ArgsIn(xs[..k + 1])), xs[..k + 1])
  {
    hide At, Redirs, Args, AddArg, SkipSpace, TextOf, Rest;
    var x, a, e := xs[k], ArgsIn(xs[..k]), i + |Written(xs[k])|;
    assert xs[..k + 1][..k] == xs[..k];
    ArgsGrow(xs, k + 1);
    if x.Arg? {
      ArgItem(s, i, x.w, c, |a|, next);
      d := AddArg(c, Word(i, e));
      ArgUnder(s, c, Word(i, e), a, xs[..k]);
    } else {
      var op := if x.In? then "<" else ">";
      RedirItem(s, i, op, x.w, c, next);
      d := Redirected(c, op[0], Word(i + 1, e));
    }
  }

  lemma {:induction false} ArgsGrow(xs: seq<Item>, k: nat)
    requires k <= |xs|
    ensures |ArgsIn(xs[..k])| <= |ArgsIn(xs)|
    decreases |xs|
  {
    if k == |xs| {
      assert xs[..k] == xs;
    } else {
      var ys := xs[..|xs| - 1];
      assert ys[..k] == xs[..k];
      ArgsGrow(ys, k);
    }
  }

  /** Arguments and redirections in any order: the command has the arguments in their order, and the
      redirections around it in theirs. */
  lemma AnyOrder(xs: seq<Item>)
    requires ItemsOk(xs) && |ArgsIn(xs)| < 10
    ensures
      var s := Line(xs);
      ParseCmd(s).Ok? && Text(s, ParseCmd(s).value) == Around(Exec(ArgsIn(xs)), xs)
  {
    hide Line, Redirs, Args, At, ParseExec, ParseCmd, Text, SkipSpace;
    var s := Line(xs);
    AtWhole(s);
    assert xs[0..] == xs && xs[..0] == [];
    LineClear(s, 0, xs);
    assert Text(s, Exec([])) == Exec([]) by { NoText(s); }
    var d := ItemsFrom(s, 0, xs, 0, Exec([]));
    ExecStarts(s, 0);
    ExecEnds(s, d);
  }

  lemma NoText(s: string)
    ensures Text(s, Exec([])) == Exec([])
  {
  }

  lemma ExecEnds(s: string, c: Cmd<Word>)
    requires ParseExec(s, 0) == Ok(Parsed(c, |s|))
    ensures ParseCmd(s) == Ok(c)
  {
    hide ParseExec, GetToken, Peek, SkipSpace;
    PeekHere(s, |s|, {'|'});
    PipeStops(s, 0, c, |s|);
    hide ParsePipe;
    LineStops(s, 0, c, |s|);
  }
}
