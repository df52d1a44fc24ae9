/** sh.c's parser as it runs: a cursor moved by mutually recursive procedures with loops, then
    NULs written into the line's buffer. Each procedure does what its function in Shell says. */
module ShellParser {
  import opened Shell

  /** The procedure's result and where it leaves the cursor. */
  predicate Gives(r: Outcome<Cmd<Word>>, at: nat, spec: Outcome<Parsed>) {
    if spec.Ok? then r == Ok(spec.value.cmd) && at == spec.value.at else r == Panic(spec.message)
  }

  /** Having peeked does not change what comes next. */
  lemma AfterPeek(s: string, i: nat, c: Cmd<Word>, argc: nat)
    requires i <= |s|
    ensures GetToken(s, SkipSpace(s, i)) == GetToken(s, i)
    ensures Redirs(s, SkipSpace(s, i), c) == Redirs(s, i, c)
    ensures Args(s, SkipSpace(s, i), c, argc) == Args(s, i, c, argc)
    ensures Backs(s, SkipSpace(s, i), c) == Backs(s, i, c)
  {
    hide GetToken, SkipSpace;
    TokenAfterSpace(s, i);
  }

  class Parser {
    const line: string
    var ps: nat

    constructor (s: string)
      ensures line == s && ps == 0
    {
      line, ps := s, 0;
    }

    predicate Valid()
      reads this
    {
      ps <= |line|
    }

    method PastSpace(i: nat) returns (j: nat)
      requires i <= |line|
      ensures j == SkipSpace(line, i)
    {
      j := i;
      while j < |line| && IsSpace(line[j])
        invariant i <= j <= |line| && SkipSpace(line, j) == SkipSpace(line, i)
      {
        j := j + 1;
      }
    }

    method Next() returns (t: Token)
      requires Valid()
      modifies this
      ensures t == GetToken(line, old(ps)) && ps == t.next <= |line|
    {
      var q := PastSpace(ps);
      var eq := q;
      var kind := '\0';
      if q < |line| {
        kind := line[q];
        if line[q] == '>' {
          eq := q + 1;
          if eq < |line| && line[eq] == '>' {
            kind := '+';
            eq := eq + 1;
          }
        } else if IsSymbol(line[q]) {
          eq := q + 1;
        } else {
          kind := 'a';
          while eq < |line| && !IsSpace(line[eq]) && !IsSymbol(line[eq])
            invariant q <= eq <= |line| && WordEnd(line, eq) == WordEnd(line, q)
          {
            eq := eq + 1;
          }
        }
      }
      var next := PastSpace(eq);
      ps := next;
      t := Token(kind, q, eq, next);
    }

    method Sees(toks: set<char>) returns (found: bool)
      requires Valid()
      modifies this
      ensures ps == SkipSpace(line, old(ps)) && found == Peek(line, old(ps), toks)
    {
      ps := PastSpace(ps);
      found := ps < |line| && line[ps] in toks;
    }

    method ParseRedirs(cmd: Cmd<Word>) returns (r: Outcome<Cmd<Word>>)
      requires Valid()
      modifies this
      ensures Valid() && Gives(r, ps, Redirs(line, old(ps), cmd)) && old(ps) <= ps
    {
      var c := cmd;
      while true
        invariant Valid() && old(ps) <= ps && Redirs(line, ps, c) == Redirs(line, old(ps), cmd)
        decreases |line| - ps
      {
        ghost var i := ps;
        AfterPeek(line, ps, c, 0);
        hide GetToken, SkipSpace;
        var more := Sees({'<', '>'});
        if !more { break; }
        var tok := Next();
        var file := Next();
        if file.kind != 'a' { return Panic("missing file for redirection"); }
        match tok.kind
        case '<' => c := Redir(c, Word(file.q, file.eq), O_RDONLY, 0);
        case '>' => c := Redir(c, Word(file.q, file.eq), O_CREATE_WRONLY, 1);
        case _ => c := Redir(c, Word(file.q, file.eq), O_CREATE_WRONLY, 1);
      }
      r := Ok(c);
    }

    /** The argument loop of parseexec. */
    method ParseArgs(cmd: Cmd<Word>) returns (r: Outcome<Cmd<Word>>)
      requires Valid()
      modifies this
      ensures Valid() && Gives(r, ps, Args(line, old(ps), cmd, 0)) && old(ps) <= ps
    {
      hide GetToken, SkipSpace, Redirs, Args, Peek, AddArg;
      var c, argc := cmd, 0;
      while true
        invariant Valid() && old(ps) <= ps && Args(line, ps, c, argc) == Args(line, old(ps), cmd, 0)
        decreases |line| - ps
      {
        AfterPeek(line, ps, c, argc);
        ArgsStep(line, ps, c, argc);
        var stop := Sees({'|', ')', '&', ';'});
        if stop { break; }
        var tok := Next();
        if tok.kind == '\0' { break; }
        if tok.kind != 'a' { return Panic("syntax"); }
        c := AddArg(c, Word(tok.q, tok.eq));
        argc := argc + 1;
        if argc >= MAXARGS { return Panic("too many args"); }
        r := ParseRedirs(c);
        if r.Panic? { return; }
        c := r.value;
      }
      r := Ok(c);
    }

    method ParseBlock() returns (r: Outcome<Cmd<Word>>)
      requires Valid() && Peek(line, ps, {'('})
      modifies this
      ensures Valid() && Gives(r, ps, Shell.ParseExec(line, old(ps))) && old(ps) <= ps
      decreases |line| - ps, 0
    {
      hide GetToken, SkipSpace, Redirs, Shell.ParseLine;
      Consumes(line, ps, {'('});
      var tok := Next();
      r := ParseLine();
      if r.Panic? { return; }
      AfterPeek(line, ps, r.value, 0);
      var closed := Sees({')'});
      if !closed { return Panic("syntax - missing )"); }
      tok := Next();
      r := ParseRedirs(r.value);
    }

    method ParseExec() returns (r: Outcome<Cmd<Word>>)
      requires Valid()
      modifies this
      ensures Valid() && Gives(r, ps, Shell.ParseExec(line, old(ps))) && old(ps) <= ps
      decreases |line| - ps, 1
    {
      BlockAfterPeek(line, ps);
      hide GetToken, SkipSpace, Redirs, Args, Shell.ParseLine;
      var block := Sees({'('});
      if block {
        r := ParseBlock();
        return;
      }
      r := ParseRedirs(Exec([]));
      if r.Panic? { return; }
      r := ParseArgs(r.value);
    }

    method ParsePipe() returns (r: Outcome<Cmd<Word>>)
      requires Valid()
      modifies this
      ensures Valid() && Gives(r, ps, Shell.ParsePipe(line, old(ps))) && old(ps) <= ps
      decreases |line| - ps, 2
    {
      hide GetToken, SkipSpace, Shell.ParseExec;
      r := ParseExec();
      if r.Panic? { return; }
      var left := r.value;
      AfterPeek(line, ps, left, 0);
      label Here:
      var more := Sees({'|'});
      if more {
        Consumes(line, old@Here(ps), {'|'});
        var tok := Next();
        r := ParsePipe();
        if r.Panic? { return; }
        r := Ok(Pipe(left, r.value));
      }
    }

    method ParseBacks(cmd: Cmd<Word>) returns (c: Cmd<Word>)
      requires Valid()
      modifies this
      ensures Valid() && Backs(line, old(ps), cmd) == Parsed(c, ps) && old(ps) <= ps
    {
      c := cmd;
      while true
        invariant Valid() && old(ps) <= ps && Backs(line, ps, c) == Backs(line, old(ps), cmd)
        decreases |line| - ps
      {
        AfterPeek(line, ps, c, 0);
        hide GetToken, SkipSpace;
        var more := Sees({'&'});
        if !more { break; }
        var tok := Next();
        c := Back(c);
      }
    }

    method ParseLine() returns (r: Outcome<Cmd<Word>>)
      requires Valid()
      modifies this
      ensures Valid() && Gives(r, ps, Shell.ParseLine(line, old(ps))) && old(ps) <= ps
      decreases |line| - ps, 3
    {
      hide GetToken, SkipSpace, Shell.ParsePipe, Backs;
      r := ParsePipe();
      if r.Panic? { return; }
      var left := ParseBacks(r.value);
      AfterPeek(line, ps, left, 0);
      label Here:
      var more := Sees({';'});
      if more {
        Consumes(line, old@Here(ps), {';'});
        var tok := Next();
        r := ParseLine();
        if r.Panic? { return; }
        r := Ok(List(left, r.value));
      } else {
        r := Ok(left);
      }
    }
  }

  lemma BlockAfterPeek(s: string, i: nat)
    requires i <= |s|
    ensures Shell.ParseExec(s, SkipSpace(s, i)) == Shell.ParseExec(s, i)
    ensures Peek(s, SkipSpace(s, i), {'('}) == Peek(s, i, {'('})
  {
    AfterPeek(s, i, Exec([]), 0);
    SkipTwice(s, i);
    hide GetToken, SkipSpace, Redirs, Args, Shell.ParseLine;
  }

  // ---- nulterminate

  method Nulterminate(cmd: Cmd<Word>, buf: array<char>)
    requires forall w :: w in Words(cmd) ==> w.eq < buf.Length
    modifies buf
    ensures forall k :: 0 <= k < buf.Length ==> buf[k] == if k in Ends(cmd) then '\0' else old(buf[k])
    decreases cmd
  {
    match cmd
    case Exec(argv) =>
      var i := 0;
      while i < |argv|
        invariant 0 <= i <= |argv|
        invariant forall k :: 0 <= k < buf.Length ==> buf[k] == if EndOf(argv[..i], k) then '\0' else old(buf[k])
      {
        assert argv[i] in Words(cmd);
        buf[argv[i].eq] := '\0';
        assert argv[..i + 1] == argv[..i] + [argv[i]];
        i := i + 1;
      }
      assert argv[..|argv|] == argv;
    case Redir(d, file, _, _) =>
      Nulterminate(d, buf);
      buf[file.eq] := '\0';
      assert forall k :: k in Ends(cmd) <==> k in Ends(d) || k == file.eq;
    case Pipe(l, r) =>
      Nulterminate(l, buf);
      Nulterminate(r, buf);
      assert forall k :: k in Ends(cmd) <==> k in Ends(l) || k in Ends(r);
    case List(l, r) =>
      Nulterminate(l, buf);
      Nulterminate(r, buf);
      assert forall k :: k in Ends(cmd) <==> k in Ends(l) || k in Ends(r);
    case Back(d) =>
      Nulterminate(d, buf);
      assert Ends(cmd) == Ends(d);
  }

  ghost predicate EndOf(argv: seq<Word>, k: nat) { exists w :: w in argv && w.eq == k }

  method Strlen(buf: array<char>) returns (n: nat)
    requires exists m :: 0 <= m < buf.Length && buf[m] == '\0'
    ensures n < buf.Length && buf[n] == '\0' && forall k :: 0 <= k < n ==> buf[k] != '\0'
  {
    n := 0;
    while buf[n] != '\0'
      invariant 0 <= n < buf.Length && forall k :: 0 <= k < n ==> buf[k] != '\0'
      invariant exists m :: n <= m < buf.Length && buf[m] == '\0'
      decreases buf.Length - n
    {
      n := n + 1;
    }
  }

  /** parsecmd up to its check for leftovers. */
  method ParseText(s: string) returns (r: Outcome<Cmd<Word>>)
    ensures r == ParseCmd(s)
  {
    var p := new Parser(s);
    r := p.ParseLine();
    if r.Panic? { return; }
    var at := p.PastSpace(p.ps);
    if at != |s| { return Panic("syntax"); }
  }

  /** Every word of the command is a C string in the buffer. */
  ghost predicate WordsAreStrings(s: string, b: seq<char>, c: Cmd<Word>)
    requires |b| == |s| + 1
  {
    forall w :: w in Words(c) ==> w.q < w.eq <= |s| && CString(b, w.q) == s[w.q..w.eq]
  }

  lemma TerminatedWords(s: string, b: seq<char>, c: Cmd<Word>)
    requires (forall k :: 0 <= k < |s| ==> s[k] != '\0') && ParseCmd(s) == Ok(c) && Terminated(s, b, c)
    ensures WordsAreStrings(s, b, c)
  {
    forall w | w in Words(c) ensures w.q < w.eq <= |s| && CString(b, w.q) == s[w.q..w.eq] { WordsReadBack(s, b, w); }
  }

  lemma EndsInside(s: string, c: Cmd<Word>)
    requires ParseCmd(s) == Ok(c)
    ensures forall w :: w in Words(c) ==> w.eq <= |s|
  {
    LineWords(s, 0);
    forall w | w in Words(c) ensures w.eq <= |s| { assert WordOk(s, w); }
  }

  /** parsecmd on a NUL-terminated line: the tree of Shell.ParseCmd, with every word of it a C
      string in the buffer, or a panic that leaves the buffer alone. */
  method Parsecmd(buf: array<char>) returns (r: Outcome<Cmd<Word>>, ghost s: string)
    requires exists n :: 0 <= n < buf.Length && buf[n] == '\0'
    modifies buf
    ensures |s| < buf.Length && s == old(buf[..|s|]) && old(buf[|s|]) == '\0'
    ensures forall k :: 0 <= k < |s| ==> s[k] != '\0'
    ensures r == ParseCmd(s)
    ensures r.Panic? ==> buf[..] == old(buf[..])
    ensures r.Ok? ==> WordsAreStrings(s, buf[..|s| + 1], r.value)
  {
    hide ParseCmd;
    var n := Strlen(buf);
    var line := buf[..n];
    s := line;
    r := ParseText(line);
    if r.Panic? { return; }
    EndsInside(s, r.value);
    Nulterminate(r.value, buf);
    assert Terminated(s, buf[..n + 1], r.value);
    TerminatedWords(s, buf[..n + 1], r.value);
  }
}
