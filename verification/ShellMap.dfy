/** Two lines with the same tokens are the same command: a map of the positions of one into those of the
    other that keeps what the tokenizer sees keeps what the parser makes of it. */
module ShellMap {
  import opened Shell

  /** Where the positions of `s` are in `t`: `q` for cursors and the starts of words, `e` for their ends. */
  datatype Edit = Edit(s: string, t: string, q: nat -> nat, e: nat -> nat)

  /** The same token: words stay words, the end stays the end, `<` stays `<`. */
  predicate Alike(x: Edit, a: Token, b: Token) {
    && b.q == x.q(a.q) && b.next == x.q(a.next) && (a.kind == 'a' ==> b.eq == x.e(a.eq))
    && (a.kind == 'a' <==> b.kind == 'a') && (a.kind == '\0' <==> b.kind == '\0') && (a.kind == '<' <==> b.kind == '<')
  }

  /** What is seen from cursor `i` of `s` and from its place in `t`. */
  predicate SeenAlike(x: Edit, i: nat)
    requires i <= |x.s|
  {
    var j := SkipSpace(x.s, i);
    && x.q(i) <= |x.t| && SkipSpace(x.t, x.q(i)) == x.q(j)
    && (j == |x.s| <==> x.q(j) == |x.t|) && (j < |x.s| && x.q(j) < |x.t| ==> x.t[x.q(j)] == x.s[j])
    && Alike(x, GetToken(x.s, i), GetToken(x.t, x.q(i)))
  }

  ghost predicate Keeps(x: Edit) {
    && (forall i :: 0 <= i <= |x.s| ==> SeenAlike(x, i))
    && (forall w :: WordOk(x.s, w) ==> TextOf(x.t, WordTo(x, w)) == TextOf(x.s, w))
    && x.q(0) <= |x.t| && SkipSpace(x.t, 0) == SkipSpace(x.t, x.q(0))
  }

  function WordTo(x: Edit, w: Word): Word { Word(x.q(w.q), x.e(w.eq)) }

  function ArgsTo(x: Edit, ws: seq<Word>): (r: seq<Word>)
    ensures |r| == |ws| && forall i :: 0 <= i < |ws| ==> r[i] == WordTo(x, ws[i])
  {
    seq(|ws|, i requires 0 <= i < |ws| => WordTo(x, ws[i]))
  }

  function CmdTo(x: Edit, c: Cmd<Word>): Cmd<Word> {
    match c
    case Exec(argv) => Exec(ArgsTo(x, argv))
    case Redir(d, f, m, fd) => Redir(CmdTo(x, d), WordTo(x, f), m, fd)
    case Pipe(l, r) => Pipe(CmdTo(x, l), CmdTo(x, r))
    case List(l, r) => List(CmdTo(x, l), CmdTo(x, r))
    case Back(d) => Back(CmdTo(x, d))
  }

  function ParsedTo(x: Edit, p: Parsed): Parsed { Parsed(CmdTo(x, p.cmd), x.q(p.at)) }

  function OutcomeTo(x: Edit, r: Outcome<Parsed>): Outcome<Parsed> {
    if r.Ok? then Ok(ParsedTo(x, r.value)) else r
  }

  // ---- Tokens

  /** Whether `>>` stands at `q`. */
  predicate Append(s: string, q: nat) { q + 1 < |s| && s[q] == '>' && s[q + 1] == '>' }

  lemma WordIs(s: string, q: nat)
    requires q < |s| && SkipSpace(s, q) == q && !IsSymbol(s[q])
    ensures IsWordChar(s[q])
    ensures GetToken(s, q) == Token('a', q, WordEnd(s, q), SkipSpace(s, WordEnd(s, q)))
  {
    hide WordEnd;
  }

  lemma SymbolIs(s: string, q: nat)
    requires q < |s| && SkipSpace(s, q) == q && IsSymbol(s[q])
    ensures s[q] != 'a' && s[q] != '\0' && (Append(s, q) ==> q + 2 <= |s| && s[q] == '>')
    ensures GetToken(s, q) == if Append(s, q) then Token('+', q, q + 2, SkipSpace(s, q + 2))
                              else Token(s[q], q, q + 1, SkipSpace(s, q + 1))
  {
    hide SkipSpace, WordEnd;
  }

  lemma SpaceTo(x: Edit, i: nat)
    requires Keeps(x) && i <= |x.s|
    ensures x.q(i) <= |x.t| && SkipSpace(x.t, x.q(i)) == x.q(SkipSpace(x.s, i))
    ensures SkipSpace(x.s, i) == |x.s| <==> x.q(SkipSpace(x.s, i)) == |x.t|
  {
    assert SeenAlike(x, i);
  }

  lemma TokenTo(x: Edit, i: nat)
    requires Keeps(x) && i <= |x.s|
    ensures x.q(i) <= |x.t| && Alike(x, GetToken(x.s, i), GetToken(x.t, x.q(i)))
  {
    assert SeenAlike(x, i);
  }

  lemma PeekTo(x: Edit, i: nat, toks: set<char>)
    requires Keeps(x) && i <= |x.s|
    ensures x.q(i) <= |x.t| && (Peek(x.t, x.q(i), toks) <==> Peek(x.s, i, toks))
  {
    hide SkipSpace, GetToken;
    assert SeenAlike(x, i);
  }

  // ---- The grammar

  lemma {:induction false} AddArgTo(x: Edit, c: Cmd<Word>, w: Word)
    ensures AddArg(CmdTo(x, c), WordTo(x, w)) == CmdTo(x, AddArg(c, w))
  {
    match c
    case Exec(argv) => assert ArgsTo(x, argv) + [WordTo(x, w)] == ArgsTo(x, argv + [w]);
    case Redir(d, _, _, _) => AddArgTo(x, d, w);
    case _ =>
  }

  lemma {:induction false} RedirsTo(x: Edit, i: nat, c: Cmd<Word>)
    requires Keeps(x) && i <= |x.s|
    ensures x.q(i) <= |x.t| && Redirs(x.t, x.q(i), CmdTo(x, c)) == OutcomeTo(x, Redirs(x.s, i, c))
    decreases |x.s| - i
  {
    hide SkipSpace, Peek, GetToken, Keeps;
    SpaceTo(x, i);
    PeekTo(x, i, {'<', '>'});
    if Peek(x.s, i, {'<', '>'}) {
      var op := GetToken(x.s, i);
      TokenTo(x, i);
      TokenTo(x, op.next);
      var file := GetToken(x.s, op.next);
      if file.kind == 'a' { RedirsTo(x, file.next, Redirected(c, op.kind, Word(file.q, file.eq))); }
    }
  }

  lemma {:induction false} ArgLoopTo(x: Edit, i: nat, c: Cmd<Word>, argc: nat)
    requires Keeps(x) && i <= |x.s|
    ensures x.q(i) <= |x.t| && Args(x.t, x.q(i), CmdTo(x, c), argc) == OutcomeTo(x, Args(x.s, i, c, argc))
    decreases |x.s| - i
  {
    hide SkipSpace, Peek, GetToken, Keeps, Redirs, AddArg, CmdTo, Args;
    SpaceTo(x, i);
    PeekTo(x, i, {'|', ')', '&', ';'});
    TokenTo(x, i);
    ArgsStep(x.s, i, c, argc);
    ArgsStep(x.t, x.q(i), CmdTo(x, c), argc);
    var t := GetToken(x.s, i);
    if !Peek(x.s, i, {'|', ')', '&', ';'}) && t.kind == 'a' && argc + 1 < MAXARGS {
      var w := Word(t.q, t.eq);
      AddArgTo(x, c, w);
      RedirsTo(x, t.next, AddArg(c, w));
      var r := Redirs(x.s, t.next, AddArg(c, w));
      if r.Ok? { ArgLoopTo(x, r.value.at, r.value.cmd, argc + 1); }
    }
  }

  lemma {:induction false} BacksTo(x: Edit, i: nat, c: Cmd<Word>)
    requires Keeps(x) && i <= |x.s|
    ensures x.q(i) <= |x.t| && Backs(x.t, x.q(i), CmdTo(x, c)) == ParsedTo(x, Backs(x.s, i, c))
    decreases |x.s| - i
  {
    hide SkipSpace, GetToken, Keeps, Peek;
    SpaceTo(x, i);
    PeekTo(x, i, {'&'});
    TokenTo(x, i);
    if Peek(x.s, i, {'&'}) {
      Consumes(x.s, i, {'&'});
      BacksTo(x, GetToken(x.s, i).next, Back(c));
    }
  }

  lemma {:induction false} ExecTo(x: Edit, i: nat)
    requires Keeps(x) && i <= |x.s|
    ensures x.q(i) <= |x.t| && ParseExec(x.t, x.q(i)) == OutcomeTo(x, ParseExec(x.s, i))
    decreases |x.s| - i, 0
  {
    hide SkipSpace, GetToken, Keeps, Redirs, Args, ParseLine, Peek;
    SpaceTo(x, i);
    PeekTo(x, i, {'('});
    TokenTo(x, i);
    if Peek(x.s, i, {'('}) {
      Consumes(x.s, i, {'('});
      LineTo(x, GetToken(x.s, i).next);
      var r := ParseLine(x.s, GetToken(x.s, i).next);
      if r.Ok? {
        PeekTo(x, r.value.at, {')'});
        TokenTo(x, r.value.at);
        RedirsTo(x, GetToken(x.s, r.value.at).next, r.value.cmd);
      }
    } else {
      RedirsTo(x, SkipSpace(x.s, i), Exec([]));
      var r := Redirs(x.s, SkipSpace(x.s, i), Exec([]));
      if r.Ok? { ArgLoopTo(x, r.value.at, r.value.cmd, 0); }
    }
  }

  lemma {:induction false} PipeTo(x: Edit, i: nat)
    requires Keeps(x) && i <= |x.s|
    ensures x.q(i) <= |x.t| && ParsePipe(x.t, x.q(i)) == OutcomeTo(x, ParsePipe(x.s, i))
    decreases |x.s| - i, 1
  {
    hide SkipSpace, GetToken, Keeps, ParseExec, Peek;
    ExecTo(x, i);
    var l := ParseExec(x.s, i);
    if l.Ok? {
      SpaceTo(x, l.value.at);
      PeekTo(x, l.value.at, {'|'});
      TokenTo(x, l.value.at);
      if Peek(x.s, l.value.at, {'|'}) {
        Consumes(x.s, l.value.at, {'|'});
        PipeTo(x, GetToken(x.s, l.value.at).next);
      }
    }
  }

  lemma {:induction false} LineTo(x: Edit, i: nat)
    requires Keeps(x) && i <= |x.s|
    ensures x.q(i) <= |x.t| && ParseLine(x.t, x.q(i)) == OutcomeTo(x, ParseLine(x.s, i))
    decreases |x.s| - i, 2
  {
    hide SkipSpace, GetToken, Keeps, ParsePipe, Backs, Peek;
    PipeTo(x, i);
    var l := ParsePipe(x.s, i);
    if l.Ok? {
      BacksTo(x, l.value.at, l.value.cmd);
      var b := Backs(x.s, l.value.at, l.value.cmd);
      SpaceTo(x, b.at);
      PeekTo(x, b.at, {';'});
      TokenTo(x, b.at);
      if Peek(x.s, b.at, {';'}) {
        Consumes(x.s, b.at, {';'});
        LineTo(x, GetToken(x.s, b.at).next);
      }
    }
  }

  // ---- The words

  lemma {:induction false} TextsTo(x: Edit, ws: seq<Word>)
    requires Keeps(x) && forall w :: w in ws ==> WordOk(x.s, w)
    ensures TextsOf(x.t, ArgsTo(x, ws)) == TextsOf(x.s, ws)
  {
    hide WordOk, TextOf, SeenAlike;
    if ws != [] {
      var v := ws[..|ws| - 1];
      TextsTo(x, v);
      assert WordOk(x.s, ws[|ws| - 1]);
      assert ArgsTo(x, ws)[..|ws| - 1] == ArgsTo(x, v);
    }
  }

  lemma {:induction false} TextTo(x: Edit, c: Cmd<Word>)
    requires Keeps(x) && WordsOk(x.s, c)
    ensures Text(x.t, CmdTo(x, c)) == Text(x.s, c)
  {
    hide WordOk, TextOf, TextsOf, SeenAlike;
    match c
    case Exec(argv) => TextsTo(x, argv);
    case Redir(d, f, _, _) =>
      assert WordOk(x.s, f);
      TextTo(x, d);
    case Pipe(l, r) =>
      TextTo(x, l);
      TextTo(x, r);
    case List(l, r) =>
      TextTo(x, l);
      TextTo(x, r);
    case Back(d) => TextTo(x, d);
  }

  // ---- Whole lines

  /** What comes behind spaces does not depend on them. */
  lemma LineAfterSpace(s: string, i: nat)
    requires i <= |s|
    ensures ParseLine(s, SkipSpace(s, i)) == ParseLine(s, i)
  {
    hide GetToken, SkipSpace, Redirs, Args, Backs;
    TokenAfterSpace(s, i);
    assert ParseExec(s, SkipSpace(s, i)) == ParseExec(s, i);
    hide ParseExec;
    assert ParsePipe(s, SkipSpace(s, i)) == ParsePipe(s, i);
  }

  /** The same command, open modes included, or the same panic. */
  ghost predicate SameCommand(s: string, t: string) {
    var a, b := ParseCmd(s), ParseCmd(t);
    if a.Ok? then b.Ok? && Text(t, b.value) == Text(s, a.value) else b == a
  }

  lemma KeptCommand(x: Edit)
    requires Keeps(x)
    ensures SameCommand(x.s, x.t)
  {
    hide Text, ParseLine, SkipSpace, WordsOk, GetToken, Keeps;
    SpaceTo(x, 0);
    LineAfterSpace(x.t, 0);
    LineAfterSpace(x.t, x.q(0));
    assert SkipSpace(x.t, 0) == SkipSpace(x.t, x.q(0)) by { StartKept(x); }
    LineTo(x, 0);
    var r := ParseLine(x.s, 0);
    if r.Ok? {
      SpaceTo(x, r.value.at);
      LineWords(x.s, 0);
      TextTo(x, r.value.cmd);
    }
  }

  lemma StartKept(x: Edit)
    requires Keeps(x)
    ensures x.q(0) <= |x.t| && SkipSpace(x.t, 0) == SkipSpace(x.t, x.q(0))
  {
  }
}
