/** The command parser of sh.c as functions of the line and a cursor into it. */
module Shell {
  const MAXARGS: nat := 10
  const O_RDONLY: nat := 0
  const O_CREATE_WRONLY: nat := 0x201

  datatype Outcome<T> = Ok(value: T) | Panic(message: string)

  /** Commands over words `W`: substrings of the line, or cursor pairs into it. */
  datatype Cmd<W> =
    | Exec(argv: seq<W>)
    | Redir(cmd: Cmd<W>, file: W, mode: nat, fd: nat)
    | Pipe(left: Cmd<W>, right: Cmd<W>)
    | List(left: Cmd<W>, right: Cmd<W>)
    | Back(cmd: Cmd<W>)

  /** The word between the pointers `q` and `eq`. */
  datatype Word = Word(q: nat, eq: nat)

  datatype Token = Token(kind: char, q: nat, eq: nat, next: nat)

  datatype Parsed = Parsed(cmd: Cmd<Word>, at: nat)

  // ---- Tokens

  predicate IsSpace(c: char) { c == ' ' || c == '\t' || c == '\r' || c == '\n' || c == '\U{0B}' }

  predicate IsSymbol(c: char) { c == '<' || c == '|' || c == '>' || c == '&' || c == ';' || c == '(' || c == ')' }

  predicate IsWordChar(c: char) { !IsSpace(c) && !IsSymbol(c) }

  function SkipSpace(s: string, i: nat): (j: nat)
    requires i <= |s|
    ensures i <= j <= |s| && (j < |s| ==> !IsSpace(s[j]))
    decreases |s| - i
  {
    if i < |s| && IsSpace(s[i]) then SkipSpace(s, i + 1) else i
  }

  function WordEnd(s: string, i: nat): (j: nat)
    requires i <= |s|
    ensures i <= j <= |s| && (j < |s| ==> !IsWordChar(s[j]))
    ensures forall k :: i <= k < j ==> IsWordChar(s[k])
    decreases |s| - i
  {
    if i < |s| && IsWordChar(s[i]) then WordEnd(s, i + 1) else i
  }

  /** gettoken; kind '\0' at the end of the line, 'a' for a word, '+' for `>>`. */
  function GetToken(s: string, i: nat): (t: Token)
    requires i <= |s|
    ensures i <= t.q <= t.eq <= t.next <= |s| && (t.kind != '\0' ==> t.q < t.eq)
    ensures t.kind == 'a' ==> t.eq == WordEnd(s, t.q) > t.q
  {
    var q := SkipSpace(s, i);
    if q == |s| then Token('\0', q, q, q)
    else if !IsSymbol(s[q]) then var e := WordEnd(s, q); Token('a', q, e, SkipSpace(s, e))
    else if s[q] == '>' && q + 1 < |s| && s[q + 1] == '>' then Token('+', q, q + 2, SkipSpace(s, q + 2))
    else Token(s[q], q, q + 1, SkipSpace(s, q + 1))
  }

  /** peek at the first character behind the spaces. */
  predicate Peek(s: string, i: nat, toks: set<char>)
    requires i <= |s|
  {
    var j := SkipSpace(s, i);
    j < |s| && s[j] in toks
  }

  // ---- The grammar

  /** The argument goes to the EXEC node under the redirections. */
  function AddArg(c: Cmd<Word>, w: Word): Cmd<Word> {
    match c
    case Exec(argv) => Exec(argv + [w])
    case Redir(d, f, m, fd) => Redir(AddArg(d, w), f, m, fd)
    case _ => c
  }

  function Redirected(c: Cmd<Word>, kind: char, w: Word): Cmd<Word> {
    if kind == '<' then Redir(c, w, O_RDONLY, 0) else Redir(c, w, O_CREATE_WRONLY, 1)
  }

  function Redirs(s: string, i: nat, c: Cmd<Word>): (r: Outcome<Parsed>)
    requires i <= |s|
    ensures r.Ok? ==> i <= r.value.at <= |s|
    decreases |s| - i
  {
    if !Peek(s, i, {'<', '>'}) then Ok(Parsed(c, SkipSpace(s, i)))
    else
      var op := GetToken(s, i);
      var file := GetToken(s, op.next);
      if file.kind != 'a' then Panic("missing file for redirection")
      else Redirs(s, file.next, Redirected(c, op.kind, Word(file.q, file.eq)))
  }

  function Args(s: string, i: nat, c: Cmd<Word>, argc: nat): (r: Outcome<Parsed>)
    requires i <= |s|
    ensures r.Ok? ==> i <= r.value.at <= |s|
    decreases |s| - i
  {
    if Peek(s, i, {'|', ')', '&', ';'}) then Ok(Parsed(c, SkipSpace(s, i)))
    else
      var t := GetToken(s, i);
      if t.kind == '\0' then Ok(Parsed(c, t.next))
      else if t.kind != 'a' then Panic("syntax")
      else if argc + 1 >= MAXARGS then Panic("too many args")
      else
        var r := Redirs(s, t.next, AddArg(c, Word(t.q, t.eq)));
        if r.Panic? then r else Args(s, r.value.at, r.value.cmd, argc + 1)
  }

  function Backs(s: string, i: nat, c: Cmd<Word>): (r: Parsed)
    requires i <= |s|
    ensures i <= r.at <= |s|
    decreases |s| - i
  {
    if !Peek(s, i, {'&'}) then Parsed(c, SkipSpace(s, i)) else Backs(s, GetToken(s, i).next, Back(c))
  }

  function ParseExec(s: string, i: nat): (r: Outcome<Parsed>)
    requires i <= |s|
    ensures r.Ok? ==> i <= r.value.at <= |s|
    decreases |s| - i, 0
  {
    if Peek(s, i, {'('}) then
      var r := ParseLine(s, GetToken(s, i).next);
      if r.Panic? then r
      else if !Peek(s, r.value.at, {')'}) then Panic("syntax - missing )")
      else Redirs(s, GetToken(s, r.value.at).next, r.value.cmd)
    else
      var r := Redirs(s, SkipSpace(s, i), Exec([]));
      if r.Panic? then r else Args(s, r.value.at, r.value.cmd, 0)
  }

  function ParsePipe(s: string, i: nat): (r: Outcome<Parsed>)
    requires i <= |s|
    ensures r.Ok? ==> i <= r.value.at <= |s|
    decreases |s| - i, 1
  {
    var l := ParseExec(s, i);
    if l.Panic? then l
    else if !Peek(s, l.value.at, {'|'}) then Ok(Parsed(l.value.cmd, SkipSpace(s, l.value.at)))
    else
      var r := ParsePipe(s, GetToken(s, l.value.at).next);
      if r.Panic? then r else Ok(Parsed(Pipe(l.value.cmd, r.value.cmd), r.value.at))
  }

  function ParseLine(s: string, i: nat): (r: Outcome<Parsed>)
    requires i <= |s|
    ensures r.Ok? ==> i <= r.value.at <= |s|
    decreases |s| - i, 2
  {
    var l := ParsePipe(s, i);
    if l.Panic? then l
    else
      var b := Backs(s, l.value.at, l.value.cmd);
      if !Peek(s, b.at, {';'}) then Ok(Parsed(b.cmd, SkipSpace(s, b.at)))
      else
        var r := ParseLine(s, GetToken(s, b.at).next);
        if r.Panic? then r else Ok(Parsed(List(b.cmd, r.value.cmd), r.value.at))
  }

  function ParseCmd(s: string): Outcome<Cmd<Word>> {
    var r := ParseLine(s, 0);
    if r.Panic? then Panic(r.message)
    else if SkipSpace(s, r.value.at) != |s| then Panic("syntax")
    else Ok(r.value.cmd)
  }

  /** One turn of the argument loop. */
  lemma ArgsStep(s: string, i: nat, c: Cmd<Word>, argc: nat)
    requires i <= |s|
    ensures
      var t, a := GetToken(s, i), Args(s, i, c, argc);
      if Peek(s, i, {'|', ')', '&', ';'}) then a == Ok(Parsed(c, SkipSpace(s, i)))
      else if t.kind == '\0' then a == Ok(Parsed(c, t.next))
      else if t.kind != 'a' then a == Panic("syntax")
      else if argc + 1 >= MAXARGS then a == Panic("too many args")
      else
        var r := Redirs(s, t.next, AddArg(c, Word(t.q, t.eq)));
        a == if r.Panic? then r else Args(s, r.value.at, r.value.cmd, argc + 1)
  {
    hide GetToken, SkipSpace, Redirs, Peek, AddArg;
  }

  /** A token that was seen is consumed. */
  lemma Consumes(s: string, i: nat, toks: set<char>)
    requires i <= |s| && Peek(s, i, toks)
    ensures GetToken(s, i).next > i
  {
  }

  lemma {:induction false} SkipTwice(s: string, i: nat)
    requires i <= |s|
    ensures SkipSpace(s, SkipSpace(s, i)) == SkipSpace(s, i)
  {
  }

  lemma TokenAfterSpace(s: string, i: nat)
    requires i <= |s|
    ensures SkipSpace(s, SkipSpace(s, i)) == SkipSpace(s, i) && GetToken(s, SkipSpace(s, i)) == GetToken(s, i)
  {
    SkipTwice(s, i);
  }

  // ---- What the parser's words are

  function Words(c: Cmd<Word>): set<Word> {
    match c
    case Exec(argv) => set w | w in argv
    case Redir(d, f, _, _) => Words(d) + {f}
    case Pipe(l, r) => Words(l) + Words(r)
    case List(l, r) => Words(l) + Words(r)
    case Back(d) => Words(d)
  }

  /** A maximal non-empty run of word characters. */
  predicate WordOk(s: string, w: Word) {
    w.q < w.eq <= |s| && w.eq == WordEnd(s, w.q)
  }

  ghost predicate WordsOk(s: string, c: Cmd<Word>) { forall w :: w in Words(c) ==> WordOk(s, w) }

  lemma {:induction c} AddArgWords(c: Cmd<Word>, w: Word)
    ensures Words(AddArg(c, w)) <= Words(c) + {w}
  {
  }

  lemma AddedWords(s: string, c: Cmd<Word>, w: Word)
    requires WordsOk(s, c) && WordOk(s, w)
    ensures WordsOk(s, AddArg(c, w))
  {
    AddArgWords(c, w);
  }

  lemma {:induction false} RedirsWords(s: string, i: nat, c: Cmd<Word>)
    requires i <= |s| && WordsOk(s, c)
    ensures Redirs(s, i, c).Ok? ==> WordsOk(s, Redirs(s, i, c).value.cmd)
    decreases |s| - i
  {
    if Peek(s, i, {'<', '>'}) {
      var op := GetToken(s, i);
      var file := GetToken(s, op.next);
      if file.kind == 'a' { RedirsWords(s, file.next, Redirected(c, op.kind, Word(file.q, file.eq))); }
    }
  }

  lemma {:induction false} ArgsWords(s: string, i: nat, c: Cmd<Word>, argc: nat)
    requires i <= |s| && WordsOk(s, c)
    ensures Args(s, i, c, argc).Ok? ==> WordsOk(s, Args(s, i, c, argc).value.cmd)
    decreases |s| - i
  {
    hide SkipSpace, Peek, GetToken, Redirs, WordsOk, AddArg;
    var t := GetToken(s, i);
    if !Peek(s, i, {'|', ')', '&', ';'}) && t.kind == 'a' && argc + 1 < MAXARGS {
      var d := AddArg(c, Word(t.q, t.eq));
      AddedWords(s, c, Word(t.q, t.eq));
      RedirsWords(s, t.next, d);
      var r := Redirs(s, t.next, d);
      if r.Ok? { ArgsWords(s, r.value.at, r.value.cmd, argc + 1); }
    }
  }

  lemma {:induction false} BacksWords(s: string, i: nat, c: Cmd<Word>)
    requires i <= |s| && WordsOk(s, c)
    ensures WordsOk(s, Backs(s, i, c).cmd)
    decreases |s| - i
  {
    if Peek(s, i, {'&'}) { BacksWords(s, GetToken(s, i).next, Back(c)); }
  }

  lemma {:induction false} ExecWords(s: string, i: nat)
    requires i <= |s|
    ensures ParseExec(s, i).Ok? ==> WordsOk(s, ParseExec(s, i).value.cmd)
    decreases |s| - i, 0
  {
    if Peek(s, i, {'('}) {
      LineWords(s, GetToken(s, i).next);
      var r := ParseLine(s, GetToken(s, i).next);
      if r.Ok? && Peek(s, r.value.at, {')'}) { RedirsWords(s, GetToken(s, r.value.at).next, r.value.cmd); }
    } else {
      RedirsWords(s, SkipSpace(s, i), Exec([]));
      var r := Redirs(s, SkipSpace(s, i), Exec([]));
      if r.Ok? { ArgsWords(s, r.value.at, r.value.cmd, 0); }
    }
  }

  lemma {:induction false} PipeWords(s: string, i: nat)
    requires i <= |s|
    ensures ParsePipe(s, i).Ok? ==> WordsOk(s, ParsePipe(s, i).value.cmd)
    decreases |s| - i, 1
  {
    ExecWords(s, i);
    var l := ParseExec(s, i);
    if l.Ok? && Peek(s, l.value.at, {'|'}) { PipeWords(s, GetToken(s, l.value.at).next); }
  }

  lemma {:induction false} LineWords(s: string, i: nat)
    requires i <= |s|
    ensures ParseLine(s, i).Ok? ==> WordsOk(s, ParseLine(s, i).value.cmd)
    decreases |s| - i, 2
  {
    PipeWords(s, i);
    var l := ParsePipe(s, i);
    if l.Ok? {
      BacksWords(s, l.value.at, l.value.cmd);
      var b := Backs(s, l.value.at, l.value.cmd);
      if Peek(s, b.at, {';'}) { LineWords(s, GetToken(s, b.at).next); }
    }
  }

  // ---- NUL termination

  function CString(b: seq<char>, q: nat): string
    requires q <= |b|
    decreases |b| - q
  {
    if q == |b| || b[q] == '\0' then "" else [b[q]] + CString(b, q + 1)
  }

  /** The line's buffer with a NUL behind the line and one at the end of each word of `c`. */
  ghost predicate Terminated(s: string, b: seq<char>, c: Cmd<Word>) {
    && |b| == |s| + 1 && b[|s|] == '\0'
    && forall k :: 0 <= k < |s| ==> b[k] == if k in Ends(c) then '\0' else s[k]
  }

  function Ends(c: Cmd<Word>): set<nat> { set w | w in Words(c) :: w.eq }

  lemma {:induction false} CStringIs(s: string, b: seq<char>, q: nat, e: nat)
    requires q <= e < |b| && e <= |s| && b[e] == '\0'
    requires forall k :: q <= k < e ==> b[k] == s[k] != '\0'
    ensures CString(b, q) == s[q..e]
    decreases e - q
  {
    if q < e {
      CStringIs(s, b, q + 1, e);
      assert s[q..e] == [s[q]] + s[q + 1..e];
    }
  }

  /** Whatever the line, if it parses then after nulterminate every argument and file name, read
      as a C string, is the text of its token: no NUL falls inside another word. */
  lemma WordsReadBack(s: string, b: seq<char>, w: Word)
    requires (forall k :: 0 <= k < |s| ==> s[k] != '\0') && ParseCmd(s).Ok?
    requires Terminated(s, b, ParseCmd(s).value) && w in Words(ParseCmd(s).value)
    ensures w.q < w.eq <= |s| && CString(b, w.q) == s[w.q..w.eq]
  {
    LineWords(s, 0);
    var c := ParseCmd(s).value;
    assert WordOk(s, w);
    assert w.eq in Ends(c);
    forall v | v in Words(c) ensures v.eq <= |s| && (v.eq < |s| ==> !IsWordChar(s[v.eq])) { assert WordOk(s, v); }
    assert forall k :: w.q <= k < w.eq ==> IsWordChar(s[k]) && k !in Ends(c);
    CStringIs(s, b, w.q, w.eq);
  }

  // ---- The round trip

  predicate LegalWord(w: string) { |w| > 0 && forall k :: 0 <= k < |w| ==> IsWordChar(w[k]) && w[k] != '\0' }

  /** The two ways of writing an output redirection. */
  predicate OutOp(out: string) { out == ">" || out == ">>" }

  /** Trees that commands can have: words are words, at most MAXARGS - 1 arguments, and
      redirections of the two kinds the shell knows. */
  predicate Legal(t: Cmd<string>) {
    match t
    case Exec(argv) => |argv| < MAXARGS && forall k :: 0 <= k < |argv| ==> LegalWord(argv[k])
    case Redir(d, f, m, fd) =>
      Legal(d) && LegalWord(f) && ((m == O_RDONLY && fd == 0) || (m == O_CREATE_WRONLY && fd == 1))
    case Pipe(l, r) => Legal(l) && Legal(r)
    case List(l, r) => Legal(l) && Legal(r)
    case Back(d) => Legal(d)
  }

  function RenderArgs(argv: seq<string>): string {
    if |argv| == 0 then "" else if |argv| == 1 then argv[0] else argv[0] + " " + RenderArgs(argv[1..])
  }

  function Block(t: Cmd<string>, out: string): string
    decreases t, 1
  {
    "(" + Render(t, out) + ")"
  }

  /** Fully parenthesised, with `out` for output redirections. */
  function Render(t: Cmd<string>, out: string): string
    decreases t, 0
  {
    match t
    case Exec(argv) => RenderArgs(argv)
    case Redir(d, f, m, _) => Block(d, out) + ((if m == O_RDONLY then "<" else out) + f)
    case Pipe(l, r) => Block(l, out) + ("|" + Block(r, out))
    case List(l, r) => Block(l, out) + (";" + Block(r, out))
    case Back(d) => Block(d, out) + "&"
  }

  function TextOf(s: string, w: Word): string { if w.q <= w.eq <= |s| then s[w.q..w.eq] else "" }

  function TextsOf(s: string, ws: seq<Word>): (r: seq<string>)
    ensures |r| == |ws|
  {
    if ws == [] then [] else TextsOf(s, ws[..|ws| - 1]) + [TextOf(s, ws[|ws| - 1])]
  }

  /** The tree of substrings that a tree of pointers stands for. */
  function Text(s: string, c: Cmd<Word>): Cmd<string> {
    match c
    case Exec(argv) => Exec(TextsOf(s, argv))
    case Redir(d, f, m, fd) => Redir(Text(s, d), TextOf(s, f), m, fd)
    case Pipe(l, r) => Pipe(Text(s, l), Text(s, r))
    case List(l, r) => List(Text(s, l), Text(s, r))
    case Back(d) => Back(Text(s, d))
  }

  /** `t` stands at position `i`. */
  predicate At(s: string, i: nat, t: string) { i + |t| <= |s| && s[i..i + |t|] == t }

  /** A command ends here: at the end of the line or before a closing parenthesis. */
  predicate Stop(s: string, j: nat) { j <= |s| && (j == |s| || s[j] == ')') }

  lemma AtParts(s: string, i: nat, t: string, u: string)
    requires At(s, i, t + u)
    ensures At(s, i, t) && At(s, i + |t|, u)
  {
    var v := s[i..i + |t + u|];
    assert s[i..i + |t|] == v[..|t|];
    assert s[i + |t|..i + |t| + |u|] == v[|t|..];
  }

  lemma AtChar(s: string, i: nat, t: string, k: nat)
    requires At(s, i, t) && k < |t|
    ensures i + k < |s| && s[i + k] == t[k]
  {
    assert s[i..i + |t|][k] == t[k];
  }

  lemma {:induction false} WordEndIs(s: string, i: nat, e: nat)
    requires i <= e <= |s| && (forall k :: i <= k < e ==> IsWordChar(s[k])) && (e < |s| ==> !IsWordChar(s[e]))
    ensures WordEnd(s, i) == e
    decreases e - i
  {
    if i < e { WordEndIs(s, i + 1, e); }
  }

  /** A legal word followed by something else is read as one token. */
  lemma WordToken(s: string, i: nat, w: string)
    requires At(s, i, w) && LegalWord(w) && (i + |w| < |s| ==> !IsWordChar(s[i + |w|]))
    ensures GetToken(s, i) == Token('a', i, i + |w|, SkipSpace(s, i + |w|)) && TextOf(s, Word(i, i + |w|)) == w
  {
    forall k | 0 <= k < |w| ensures i + k < |s| && s[i + k] == w[k] { AtChar(s, i, w, k); }
    assert forall k :: i <= k < i + |w| ==> s[k] == w[k - i];
    WordEndIs(s, i, i + |w|);
  }

  /** No space here. */
  predicate Clear(s: string, i: nat) { i <= |s| && (i < |s| ==> !IsSpace(s[i])) }

  lemma PeekHere(s: string, i: nat, toks: set<char>)
    requires Clear(s, i)
    ensures SkipSpace(s, i) == i && (Peek(s, i, toks) <==> i < |s| && s[i] in toks)
  {
  }

  lemma SymbolToken(s: string, i: nat)
    requires i < |s| && IsSymbol(s[i]) && Clear(s, i + 1) && (s[i] == '>' && i + 1 < |s| ==> s[i + 1] != '>')
    ensures GetToken(s, i) == Token(s[i], i, i + 1, i + 1)
  {
  }

  /** Where no redirection follows. */
  lemma NoRedirs(s: string, i: nat, c: Cmd<Word>)
    requires Clear(s, i) && (i < |s| ==> s[i] !in {'<', '>'})
    ensures Redirs(s, i, c) == Ok(Parsed(c, i))
  {
  }

  lemma {:induction false} ArgsClear(argv: seq<string>)
    requires forall k :: 0 <= k < |argv| ==> LegalWord(argv[k])
    ensures |argv| > 0 ==> |RenderArgs(argv)| > 0 && IsWordChar(RenderArgs(argv)[0])
  {
    if |argv| > 0 { assert LegalWord(argv[0]); }
  }

  /** Where the first of some rendered arguments ends and the others begin. */
  lemma ArgsCons(argv: seq<string>)
    requires |argv| > 0
    ensures if |argv| > 1 then RenderArgs(argv) == argv[0] + (" " + RenderArgs(argv[1..]))
            else RenderArgs(argv) == argv[0] && RenderArgs(argv[1..]) == ""
  {
    if |argv| > 1 {
      Assoc(argv[0], " ", RenderArgs(argv[1..]));
    }
  }

  lemma Assoc(a: string, b: string, c: string)
    ensures a + b + c == a + (b + c)
  {
  }

  lemma OneSpace(s: string, j: nat)
    requires j < |s| && s[j] == ' ' && Clear(s, j + 1)
    ensures SkipSpace(s, j) == j + 1
  {
  }

  lemma AtEnd(s: string, i: nat, t: string)
    requires At(s, i, t)
    ensures i + |t| <= |s|
  {
  }

  lemma AtNothing(s: string, i: nat)
    requires i <= |s|
    ensures At(s, i, "")
  {
  }

  lemma ArgLayout(s: string, i: nat, argv: seq<string>) returns (next: nat)
    requires |argv| > 0 && forall k :: 0 <= k < |argv| ==> LegalWord(argv[k])
    requires At(s, i, RenderArgs(argv)) && Stop(s, i + |RenderArgs(argv)|)
    ensures At(s, i, argv[0]) && (i + |argv[0]| < |s| ==> !IsWordChar(s[i + |argv[0]|]))
    ensures next == SkipSpace(s, i + |argv[0]|) && Clear(s, next) && (next < |s| ==> s[next] !in {'<', '>'})
    ensures At(s, next, RenderArgs(argv[1..])) && next + |RenderArgs(argv[1..])| == i + |RenderArgs(argv)|
  {
    hide At, RenderArgs, SkipSpace;
    var w, rest := argv[0], argv[1..];
    var j := i + |w|;
    ArgsClear(rest);
    ArgsCons(argv);
    AtEnd(s, i, RenderArgs(argv));
    if |rest| > 0 {
      AtParts(s, i, w, " " + RenderArgs(rest));
      AtParts(s, j, " ", RenderArgs(rest));
      AtChar(s, j, " ", 0);
      AtChar(s, j + 1, RenderArgs(rest), 0);
      next := j + 1;
      OneSpace(s, j);
    } else {
      next := j;
      PeekHere(s, j, {});
      AtNothing(s, j);
    }
  }

  lemma NoArgs(s: string, i: nat, acc: seq<Word>)
    requires Stop(s, i)
    ensures Args(s, i, Exec(acc), |acc|) == Ok(Parsed(Exec(acc), i))
  {
    PeekHere(s, i, {'|', ')', '&', ';'});
  }

  lemma ArgStep(s: string, i: nat, w: string, acc: seq<Word>, next: nat)
    requires LegalWord(w) && At(s, i, w) && (i + |w| < |s| ==> !IsWordChar(s[i + |w|])) && |acc| + 1 < MAXARGS
    requires next == SkipSpace(s, i + |w|) && Clear(s, next) && (next < |s| ==> s[next] !in {'<', '>'})
    ensures Args(s, i, Exec(acc), |acc|) == Args(s, next, Exec(acc + [Word(i, i + |w|)]), |acc| + 1)
    ensures TextOf(s, Word(i, i + |w|)) == w
  {
    hide GetToken, Redirs, Peek, SkipSpace, WordEnd, At, TextOf;
    AtChar(s, i, w, 0);
    WordToken(s, i, w);
    PeekHere(s, i, {'|', ')', '&', ';'});
    NoRedirs(s, next, Exec(acc + [Word(i, i + |w|)]));
  }

  lemma ArgsNone()
    ensures RenderArgs([]) == ""
  {
  }

  lemma TextsAdd(s: string, ws: seq<Word>, w: Word)
    ensures TextsOf(s, ws + [w]) == TextsOf(s, ws) + [TextOf(s, w)]
  {
    assert (ws + [w])[..|ws|] == ws;
  }

  /** The argument loop reads rendered arguments back. */
  lemma {:induction false} ArgsOf(s: string, i: nat, argv: seq<string>, acc: seq<Word>) returns (ws: seq<Word>)
    requires (forall k :: 0 <= k < |argv| ==> LegalWord(argv[k])) && |acc| + |argv| < MAXARGS
    requires At(s, i, RenderArgs(argv)) && Stop(s, i + |RenderArgs(argv)|)
    ensures Args(s, i, Exec(acc), |acc|) == Ok(Parsed(Exec(ws), i + |RenderArgs(argv)|))
    ensures TextsOf(s, ws) == TextsOf(s, acc) + argv
    decreases |argv|
  {
    hide Args, At, SkipSpace, RenderArgs, LegalWord, Stop, TextsOf, TextOf, IsWordChar, Clear;
    if |argv| == 0 {
      ws := acc;
      ArgsNone();
      NoArgs(s, i, acc);
    } else {
      var next := ArgLayout(s, i, argv);
      ArgStep(s, i, argv[0], acc, next);
      var all := acc + [Word(i, i + |argv[0]|)];
      ws := ArgsOf(s, next, argv[1..], all);
      TextsAdd(s, acc, Word(i, i + |argv[0]|));
      assert TextsOf(s, acc) + [argv[0]] + argv[1..] == TextsOf(s, acc) + argv;
    }
  }

  // Each production once, from what its parts give

  lemma PipeStops(s: string, i: nat, c: Cmd<Word>, e: nat)
    requires i <= |s| && ParseExec(s, i) == Ok(Parsed(c, e)) && Clear(s, e) && (e < |s| ==> s[e] != '|')
    ensures ParsePipe(s, i) == Ok(Parsed(c, e))
  {
    hide ParseExec, SkipSpace, Peek, GetToken;
    PeekHere(s, e, {'|'});
  }

  lemma PipeGoes(s: string, i: nat, l: Cmd<Word>, j: nat, r: Cmd<Word>, e: nat)
    requires i <= |s| && ParseExec(s, i) == Ok(Parsed(l, j)) && j < |s| && s[j] == '|' && Clear(s, j + 1)
    requires ParsePipe(s, j + 1) == Ok(Parsed(r, e))
    ensures ParsePipe(s, i) == Ok(Parsed(Pipe(l, r), e))
  {
    hide ParseExec, SkipSpace, Peek, GetToken;
    PeekHere(s, j, {'|'});
    SymbolToken(s, j);
  }

  lemma NoBacks(s: string, i: nat, c: Cmd<Word>)
    requires Clear(s, i) && (i < |s| ==> s[i] != '&')
    ensures Backs(s, i, c) == Parsed(c, i)
  {
    hide SkipSpace, Peek;
    PeekHere(s, i, {'&'});
  }

  lemma LineStops(s: string, i: nat, c: Cmd<Word>, e: nat)
    requires i <= |s| && ParsePipe(s, i) == Ok(Parsed(c, e)) && Stop(s, e)
    ensures ParseLine(s, i) == Ok(Parsed(c, e))
  {
    hide ParsePipe, SkipSpace, Peek, GetToken, Backs;
    NoBacks(s, e, c);
    PeekHere(s, e, {';'});
  }

  lemma LineGoes(s: string, i: nat, l: Cmd<Word>, j: nat, r: Cmd<Word>, e: nat)
    requires i <= |s| && ParsePipe(s, i) == Ok(Parsed(l, j)) && j < |s| && s[j] == ';' && Clear(s, j + 1)
    requires ParseLine(s, j + 1) == Ok(Parsed(r, e))
    ensures ParseLine(s, i) == Ok(Parsed(List(l, r), e))
  {
    hide ParsePipe, SkipSpace, Peek, GetToken, Backs;
    NoBacks(s, j, l);
    PeekHere(s, j, {';'});
    SymbolToken(s, j);
  }

  lemma LineBacks(s: string, i: nat, c: Cmd<Word>, j: nat)
    requires i <= |s| && ParsePipe(s, i) == Ok(Parsed(c, j)) && j < |s| && s[j] == '&' && Stop(s, j + 1)
    ensures ParseLine(s, i) == Ok(Parsed(Back(c), j + 1))
  {
    hide ParsePipe, SkipSpace, Peek, GetToken;
    assert Backs(s, j, c) == Parsed(Back(c), j + 1) by {
      PeekHere(s, j, {'&'});
      SymbolToken(s, j);
      NoBacks(s, j + 1, Back(c));
    }
    hide Backs;
    PeekHere(s, j + 1, {';'});
  }

  /** The token of a redirection: `>>` is one token. */
  lemma RedirToken(s: string, j: nat, op: string)
    requires (op == "<" || OutOp(op)) && At(s, j, op) && j + |op| < |s| && IsWordChar(s[j + |op|])
    ensures s[j] in {'<', '>'} && GetToken(s, j) == Token(if op == ">>" then '+' else s[j], j, j + |op|, j + |op|)
    ensures s[j] == op[0]
  {
    AtChar(s, j, op, 0);
    if op == ">>" { AtChar(s, j, op, 1); }
  }

  lemma RedirOnce(s: string, j: nat, c: Cmd<Word>, op: string, w: string)
    requires (op == "<" || OutOp(op)) && LegalWord(w) && At(s, j, op) && At(s, j + |op|, w) && Stop(s, j + |op| + |w|)
    ensures
      var word := Word(j + |op|, j + |op| + |w|);
      && Redirs(s, j, c) == Ok(Parsed(Redirected(c, if op == "<" then '<' else '>', word), word.eq))
      && TextOf(s, word) == w
  {
    hide SkipSpace, Peek, GetToken, At;
    var e := j + |op| + |w|;
    AtChar(s, j + |op|, w, 0);
    assert IsWordChar(w[0]);
    RedirToken(s, j, op);
    PeekHere(s, j, {'<', '>'});
    WordToken(s, j + |op|, w);
    PeekHere(s, e, {'<', '>'});
    NoRedirs(s, e, Redirected(c, if op == "<" then '<' else '>', Word(j + |op|, e)));
  }

  lemma RenderStart(t: Cmd<string>, out: string)
    requires OutOp(out) && Legal(t)
    ensures |Render(t, out)| > 0 ==> Render(t, out)[0] == '(' || IsWordChar(Render(t, out)[0])
  {
    if t.Exec? { ArgsClear(t.argv); }
  }

  lemma ExecOf(s: string, i: nat, argv: seq<string>) returns (c: Cmd<Word>)
    requires Legal(Exec(argv)) && At(s, i, RenderArgs(argv)) && Stop(s, i + |RenderArgs(argv)|)
    ensures ParseExec(s, i) == Ok(Parsed(c, i + |RenderArgs(argv)|)) && Text(s, c) == Exec(argv)
  {
    hide SkipSpace, Peek, GetToken, Args, Redirs, At;
    ArgsClear(argv);
    if |argv| > 0 { AtChar(s, i, RenderArgs(argv), 0); }
    assert Clear(s, i) && (i < |s| ==> s[i] !in {'(', '<', '>'});
    hide RenderArgs;
    var ws := ArgsOf(s, i, argv, []);
    c := Exec(ws);
    assert TextsOf(s, ws) == argv;
    PeekHere(s, i, {'('});
    NoRedirs(s, i, Exec([]));
  }

  /** A command in parentheses; what follows may redirect it. */
  lemma {:induction false} BlockOf(s: string, i: nat, t: Cmd<string>, out: string) returns (c: Cmd<Word>)
    requires OutOp(out) && Legal(t) && At(s, i, Block(t, out)) && Clear(s, i + |Block(t, out)|)
    ensures ParseExec(s, i) == Redirs(s, i + |Block(t, out)|, c) && Text(s, c) == t
    decreases t, 2
  {
    hide SkipSpace, Peek, GetToken, Redirs, At, Render, ParseLine, Block, Legal, Text;
    var j := i + 1 + |Render(t, out)|;
    BlockParts(s, i, t, out);
    c := LineOf(s, i + 1, t, out);
    PeekHere(s, i, {'('});
    SymbolToken(s, i);
    PeekHere(s, j, {')'});
    SymbolToken(s, j);
  }

  lemma BlockParts(s: string, i: nat, t: Cmd<string>, out: string)
    requires OutOp(out) && Legal(t) && At(s, i, Block(t, out))
    ensures i < |s| && s[i] == '(' && Clear(s, i + 1) && At(s, i + 1, Render(t, out))
    ensures var j := i + 1 + |Render(t, out)|; j < |s| && s[j] == ')' && j + 1 == i + |Block(t, out)|
  {
    hide At, Render, Legal;
    var r := Render(t, out);
    assert Block(t, out) == "(" + (r + ")");
    AtParts(s, i, "(", r + ")");
    AtParts(s, i + 1, r, ")");
    AtChar(s, i, "(", 0);
    AtChar(s, i + 1 + |r|, ")", 0);
    RenderStart(t, out);
    if |r| > 0 { AtChar(s, i + 1, r, 0); }
  }

  /** The block that ends a command, with nothing redirected behind it. */
  lemma {:induction false} LastBlock(s: string, i: nat, t: Cmd<string>, out: string) returns (c: Cmd<Word>)
    requires OutOp(out) && Legal(t) && At(s, i, Block(t, out)) && Clear(s, i + |Block(t, out)|)
    requires i + |Block(t, out)| < |s| ==> s[i + |Block(t, out)|] !in {'<', '>'}
    ensures ParseExec(s, i) == Ok(Parsed(c, i + |Block(t, out)|)) && Text(s, c) == t && i < |s| && s[i] == '('
    decreases t, 3
  {
    hide At, Redirs, ParseExec;
    c := BlockOf(s, i, t, out);
    NoRedirs(s, i + |Block(t, out)|, c);
    BlockParts(s, i, t, out);
  }

  lemma {:induction false} LineOf(s: string, i: nat, t: Cmd<string>, out: string) returns (c: Cmd<Word>)
    requires OutOp(out) && Legal(t) && At(s, i, Render(t, out)) && Stop(s, i + |Render(t, out)|)
    ensures ParseLine(s, i) == Ok(Parsed(c, i + |Render(t, out)|)) && Text(s, c) == t
    decreases t, 1
  {
    hide At, ParseLine, ParsePipe, ParseExec;
    match t
    case Exec(argv) =>
      c := ExecOf(s, i, argv);
      PipeStops(s, i, c, i + |Render(t, out)|);
      LineStops(s, i, c, i + |Render(t, out)|);
    case Back(_) => c := BackOf(s, i, t, out);
    case Redir(_, _, _, _) => c := RedirOf(s, i, t, out);
    case Pipe(_, _) => c := PipeOf(s, i, t, out);
    case List(_, _) => c := ListOf(s, i, t, out);
  }

  lemma {:induction false} BackOf(s: string, i: nat, t: Cmd<string>, out: string) returns (c: Cmd<Word>)
    requires t.Back? && OutOp(out) && Legal(t) && At(s, i, Render(t, out)) && Stop(s, i + |Render(t, out)|)
    ensures ParseLine(s, i) == Ok(Parsed(c, i + |Render(t, out)|)) && Text(s, c) == t
    decreases t, 0
  {
    hide At, ParseLine, ParsePipe, ParseExec, Block;
    var j := Joint(s, i, t.cmd, "&", out);
    var d := LastBlock(s, i, t.cmd, out);
    PipeStops(s, i, d, j);
    LineBacks(s, i, d, j);
    c := Back(d);
  }

  lemma {:induction false} RedirOf(s: string, i: nat, t: Cmd<string>, out: string) returns (c: Cmd<Word>)
    requires t.Redir? && OutOp(out) && Legal(t) && At(s, i, Render(t, out)) && Stop(s, i + |Render(t, out)|)
    ensures ParseLine(s, i) == Ok(Parsed(c, i + |Render(t, out)|)) && Text(s, c) == t
    decreases t, 0
  {
    hide At, ParseLine, ParsePipe, ParseExec, Block, Redirs;
    var op := if t.mode == O_RDONLY then "<" else out;
    var j := Joint(s, i, t.cmd, op + t.file, out);
    AtParts(s, j, op, t.file);
    var d := BlockOf(s, i, t.cmd, out);
    RedirOnce(s, j, d, op, t.file);
    var e := i + |Render(t, out)|;
    c := Redirected(d, if op == "<" then '<' else '>', Word(j + |op|, e));
    PipeStops(s, i, c, e);
    LineStops(s, i, c, e);
  }

  lemma {:induction false} PipeOf(s: string, i: nat, t: Cmd<string>, out: string) returns (c: Cmd<Word>)
    requires t.Pipe? && OutOp(out) && Legal(t) && At(s, i, Render(t, out)) && Stop(s, i + |Render(t, out)|)
    ensures ParseLine(s, i) == Ok(Parsed(c, i + |Render(t, out)|)) && Text(s, c) == t
    decreases t, 0
  {
    hide At, ParseLine, ParsePipe, ParseExec, Block;
    var j := Joint(s, i, t.left, "|" + Block(t.right, out), out);
    AtParts(s, j, "|", Block(t.right, out));
    var l := LastBlock(s, i, t.left, out);
    var r := LastBlock(s, j + 1, t.right, out);
    var e := i + |Render(t, out)|;
    PipeStops(s, j + 1, r, e);
    PipeGoes(s, i, l, j, r, e);
    c := Pipe(l, r);
    LineStops(s, i, c, e);
  }

  lemma {:induction false} ListOf(s: string, i: nat, t: Cmd<string>, out: string) returns (c: Cmd<Word>)
    requires t.List? && OutOp(out) && Legal(t) && At(s, i, Render(t, out)) && Stop(s, i + |Render(t, out)|)
    ensures ParseLine(s, i) == Ok(Parsed(c, i + |Render(t, out)|)) && Text(s, c) == t
    decreases t, 0
  {
    hide At, ParseLine, ParsePipe, ParseExec, Block;
    var j := Joint(s, i, t.left, ";" + Block(t.right, out), out);
    AtParts(s, j, ";", Block(t.right, out));
    var l := LastBlock(s, i, t.left, out);
    var r := LastBlock(s, j + 1, t.right, out);
    var e := i + |Render(t, out)|;
    PipeStops(s, j + 1, r, e);
    LineStops(s, j + 1, r, e);
    PipeStops(s, i, l, j);
    LineGoes(s, i, l, j, r, e);
    c := List(l, r);
  }

  /** Where a block and what stands behind it meet. */
  lemma Joint(s: string, i: nat, d: Cmd<string>, rest: string, out: string) returns (j: nat)
    requires At(s, i, Block(d, out) + rest) && |rest| > 0 && !IsSpace(rest[0])
    ensures j == i + |Block(d, out)| && At(s, i, Block(d, out))
    ensures At(s, j, rest) && j < |s| && s[j] == rest[0] && Clear(s, j)
  {
    j := i + |Block(d, out)|;
    AtParts(s, i, Block(d, out), rest);
    AtChar(s, j, rest, 0);
  }

  /** A rendering is a C string. */
  lemma {:induction false} RenderClean(t: Cmd<string>, out: string, k: nat)
    requires OutOp(out) && Legal(t) && k < |Render(t, out)|
    ensures Render(t, out)[k] != '\0'
    decreases t, 0
  {
    match t
    case Exec(argv) => ArgsClean(argv, k);
    case Back(d) => if k < |Block(d, out)| { BlockClean(d, out, k); }
    case Redir(d, f, m, _) =>
      if k < |Block(d, out)| { BlockClean(d, out, k); }
    case Pipe(l, r) =>
      if k < |Block(l, out)| { BlockClean(l, out, k); }
      if k > |Block(l, out)| { BlockClean(r, out, k - |Block(l, out)| - 1); }
    case List(l, r) =>
      if k < |Block(l, out)| { BlockClean(l, out, k); }
      if k > |Block(l, out)| { BlockClean(r, out, k - |Block(l, out)| - 1); }
  }

  lemma {:induction false} BlockClean(t: Cmd<string>, out: string, k: nat)
    requires OutOp(out) && Legal(t) && k < |Block(t, out)|
    ensures Block(t, out)[k] != '\0'
    decreases t, 1
  {
    if 0 < k <= |Render(t, out)| { RenderClean(t, out, k - 1); }
  }

  lemma {:induction false} ArgsClean(argv: seq<string>, k: nat)
    requires (forall i :: 0 <= i < |argv| ==> LegalWord(argv[i])) && k < |RenderArgs(argv)|
    ensures RenderArgs(argv)[k] != '\0'
  {
    if |argv| > 0 {
      assert LegalWord(argv[0]);
      if |argv| > 1 && k > |argv[0]| { ArgsClean(argv[1..], k - |argv[0]| - 1); }
    }
  }

  /** Parsing the fully parenthesised rendering of any legal tree, which is a C string, gives back
      that tree, whichever way output redirections are written. */
  lemma RoundTrip(t: Cmd<string>, out: string)
    requires OutOp(out) && Legal(t)
    ensures forall k :: 0 <= k < |Render(t, out)| ==> Render(t, out)[k] != '\0'
    ensures ParseCmd(Render(t, out)).Ok? && Text(Render(t, out), ParseCmd(Render(t, out)).value) == t
  {
    var s := Render(t, out);
    forall k | 0 <= k < |s| ensures s[k] != '\0' { RenderClean(t, out, k); }
    assert s[0..0 + |s|] == s;
    hide Render;
    var c := LineOf(s, 0, t, out);
  }

  /** `>>` means what `>` means: the two renderings of a tree parse to the same commands. */
  lemma AppendIsOutput(t: Cmd<string>)
    requires Legal(t)
    ensures
      var a, b := Render(t, ">"), Render(t, ">>");
      ParseCmd(a).Ok? && ParseCmd(b).Ok? && Text(a, ParseCmd(a).value) == Text(b, ParseCmd(b).value)
  {
    hide Render, ParseCmd, Text;
    RoundTrip(t, ">");
    RoundTrip(t, ">>");
  }
}
