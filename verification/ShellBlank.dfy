/** Blanks in command lines, by the characters themselves: blank, tab, carriage return, newline and vertical
    tab separate words and mean nothing else. */
module ShellBlank {
  import opened Shell
  import opened ShellMap
  import ShellShow

  lemma SpecialChars(c: char)
    ensures IsSpace(c) <==> c in " \t\r\n\U{0B}"
    ensures IsSymbol(c) <==> c in "<|>&;()"
  {
    Five(c);
    Seven(c);
  }

  lemma Five(c: char)
    ensures c in " \t\r\n\U{0B}" <==> c == ' ' || c == '\t' || c == '\r' || c == '\n' || c == '\U{0B}'
  {
    var s := " \t\r\n\U{0B}";
    assert s[0] == ' ' && s[1] == '\t' && s[2] == '\r' && s[3] == '\n' && s[4] == '\U{0B}';
  }

  lemma Seven(c: char)
    ensures c in "<|>&;()" <==> c == '<' || c == '|' || c == '>' || c == '&' || c == ';' || c == '(' || c == ')'
  {
    var s := "<|>&;()";
    assert s[0] == '<' && s[1] == '|' && s[2] == '>' && s[3] == '&' && s[4] == ';' && s[5] == '(' && s[6] == ')';
  }

  // ---- A blank more

  /** The line with `c` at `p`. */
  function With(s: string, p: nat, c: char): string
    requires p <= |s|
  {
    s[..p] + [c] + s[p..]
  }

  /** At `p` a word ends or begins or there is none, and no `>>` is torn apart. */
  predicate Between(s: string, p: nat) {
    && p <= |s|
    && (p == 0 || p == |s| || !IsWordChar(s[p - 1]) || !IsWordChar(s[p]))
    && !(0 < p < |s| && s[p - 1] == '>' && s[p] == '>')
  }

  /** Where cursors and the starts of words go. */
  function QTo(p: nat, i: nat): nat { if i < p then i else i + 1 }

  /** Where the ends of words go. */
  function ETo(p: nat, i: nat): nat { if i <= p then i else i + 1 }

  function Spacing(s: string, p: nat, c: char): Edit
    requires p <= |s|
  {
    Edit(s, With(s, p, c), i => QTo(p, i), i => ETo(p, i))
  }

  lemma CharTo(s: string, p: nat, c: char, i: nat)
    requires p <= |s| && i <= |s|
    ensures |With(s, p, c)| == |s| + 1 && QTo(p, i) <= |s| + 1 && (QTo(p, i) == |s| + 1 <==> i == |s|)
    ensures i < |s| ==> With(s, p, c)[QTo(p, i)] == s[i]
    ensures With(s, p, c)[p] == c
  {
  }

  lemma {:induction false} SpaceTo(s: string, p: nat, c: char, i: nat)
    requires p <= |s| && i <= |s| && IsSpace(c)
    ensures QTo(p, i) <= |With(s, p, c)| && SkipSpace(With(s, p, c), QTo(p, i)) == QTo(p, SkipSpace(s, i))
    ensures i == p ==> SkipSpace(With(s, p, c), p) == QTo(p, SkipSpace(s, p))
    decreases |s| - i
  {
    hide With;
    CharTo(s, p, c, i);
    if i < |s| && IsSpace(s[i]) {
      SpaceTo(s, p, c, i + 1);
      assert QTo(p, i) + 1 == QTo(p, i + 1) || (i + 1 == p && QTo(p, i) + 1 == p);
    }
  }

  lemma {:induction false} WordEndTo(s: string, p: nat, c: char, i: nat)
    requires Between(s, p) && i < |s| && IsSpace(c) && IsWordChar(s[i])
    ensures QTo(p, i) <= |With(s, p, c)| && WordEnd(With(s, p, c), QTo(p, i)) == ETo(p, WordEnd(s, i))
    decreases |s| - i
  {
    hide With;
    CharTo(s, p, c, i);
    if i + 1 < |s| && IsWordChar(s[i + 1]) {
      WordEndTo(s, p, c, i + 1);
    } else {
      CharTo(s, p, c, i + 1);
    }
  }

  lemma EndTokens(s: string, p: nat, c: char)
    requires p <= |s| && IsSpace(c)
    ensures Alike(Spacing(s, p, c), GetToken(s, |s|), GetToken(With(s, p, c), |s| + 1))
  {
    hide With;
    CharTo(s, p, c, |s|);
  }

  lemma WordTokens(s: string, p: nat, c: char, q: nat)
    requires p <= |s| && Between(s, p) && IsSpace(c) && q < |s| && SkipSpace(s, q) == q && !IsSymbol(s[q])
    ensures QTo(p, q) <= |With(s, p, c)|
    ensures Alike(Spacing(s, p, c), GetToken(s, q), GetToken(With(s, p, c), QTo(p, q)))
  {
    hide SkipSpace, WordEnd, With, GetToken, Between, IsSymbol, IsSpace, IsWordChar;
    WordIs(s, q);
    CharTo(s, p, c, q);
    SpaceTo(s, p, c, q);
    WordEndTo(s, p, c, q);
    SpaceTo(s, p, c, WordEnd(s, q));
    WordIs(With(s, p, c), QTo(p, q));
  }

  lemma AppendTo(s: string, p: nat, c: char, q: nat)
    requires p <= |s| && Between(s, p) && IsSpace(c) && q < |s|
    ensures QTo(p, q) < |With(s, p, c)| && (Append(With(s, p, c), QTo(p, q)) <==> Append(s, q))
    ensures Append(s, q) ==> QTo(p, q) + 2 == ETo(p, q + 2)
    ensures QTo(p, q) + 1 == ETo(p, q + 1)
  {
    hide With;
    CharTo(s, p, c, q);
    if q + 1 < |s| { CharTo(s, p, c, q + 1); }
  }

  lemma SymbolTokens(s: string, p: nat, c: char, q: nat)
    requires p <= |s| && Between(s, p) && IsSpace(c) && q < |s| && SkipSpace(s, q) == q && IsSymbol(s[q])
    ensures QTo(p, q) <= |With(s, p, c)|
    ensures Alike(Spacing(s, p, c), GetToken(s, q), GetToken(With(s, p, c), QTo(p, q)))
  {
    hide SkipSpace, With, GetToken, IsSymbol, Append, Between;
    SymbolIs(s, q);
    CharTo(s, p, c, q);
    SpaceTo(s, p, c, q);
    AppendTo(s, p, c, q);
    SymbolIs(With(s, p, c), QTo(p, q));
    var n := if Append(s, q) then q + 2 else q + 1;
    SpaceTo(s, p, c, n);
  }

  lemma TokensAlike(s: string, p: nat, c: char, i: nat)
    requires p <= |s| && Between(s, p) && IsSpace(c) && i <= |s|
    ensures QTo(p, i) <= |With(s, p, c)|
    ensures Alike(Spacing(s, p, c), GetToken(s, i), GetToken(With(s, p, c), QTo(p, i)))
  {
    hide SkipSpace, WordEnd, With, Alike, Between;
    var q := SkipSpace(s, i);
    SpaceTo(s, p, c, i);
    TokenAfterSpace(s, i);
    TokenAfterSpace(With(s, p, c), QTo(p, i));
    CharTo(s, p, c, q);
    if q == |s| {
      EndTokens(s, p, c);
    } else if IsSymbol(s[q]) {
      SymbolTokens(s, p, c, q);
    } else {
      WordTokens(s, p, c, q);
    }
  }

  lemma NotInside(s: string, p: nat, w: Word)
    requires Between(s, p) && WordOk(s, w)
    ensures p <= w.q || w.eq <= p
  {
  }

  /** Pieces of the line on either side. */
  lemma PieceTo(s: string, p: nat, c: char, a: nat, b: nat)
    requires a <= b <= |s| && p <= |s|
    ensures |With(s, p, c)| == |s| + 1
    ensures b <= p ==> With(s, p, c)[a..b] == s[a..b]
    ensures p <= a ==> With(s, p, c)[a + 1..b + 1] == s[a..b]
  {
  }

  lemma WordTextTo(s: string, p: nat, c: char, w: Word)
    requires p <= |s| && Between(s, p) && IsSpace(c) && WordOk(s, w)
    ensures TextOf(With(s, p, c), Word(QTo(p, w.q), ETo(p, w.eq))) == TextOf(s, w)
  {
    NotInside(s, p, w);
    hide WordEnd, With, Between, IsSpace, IsSymbol;
    PieceTo(s, p, c, w.q, w.eq);
  }

  lemma SpacingKeeps(s: string, p: nat, c: char)
    requires p <= |s| && Between(s, p) && IsSpace(c)
    ensures Keeps(Spacing(s, p, c))
  {
    hide With, SkipSpace, GetToken, Alike, TextOf, WordOk, Between;
    var x := Spacing(s, p, c);
    forall i | 0 <= i <= |s| ensures SeenAlike(x, i) {
      SpaceTo(s, p, c, i);
      CharTo(s, p, c, SkipSpace(s, i));
      TokensAlike(s, p, c, i);
    }
    forall w | WordOk(s, w) ensures TextOf(x.t, WordTo(x, w)) == TextOf(s, w) { WordTextTo(s, p, c, w); }
    SpaceTo(s, p, c, 0);
  }

  /** In any line, at either end, beside one of `<|>&;()` or beside another blank, but not inside `>>`, one
      more of the five blanks changes nothing: the same command or the same panic. */
  lemma BlankMeansNothing(s: string, p: nat, c: char)
    requires c in " \t\r\n\U{0B}" && p <= |s|
    requires
      || p == 0 || p == |s|
      || s[p - 1] in " \t\r\n\U{0B}<|>&;()" || s[p] in " \t\r\n\U{0B}<|>&;()"
    requires !(0 < p < |s| && s[p - 1] == '>' && s[p] == '>')
    ensures SameCommand(s, s[..p] + [c] + s[p..])
  {
    SpecialChars(c);
    if 0 < p < |s| {
      Special(s[p - 1]);
      Special(s[p]);
    }
    SpacingKeeps(s, p, c);
    KeptCommand(Spacing(s, p, c));
  }

  lemma Special(c: char)
    ensures c in " \t\r\n\U{0B}<|>&;()" <==> !IsWordChar(c)
  {
    SpecialChars(c);
    var a, b := " \t\r\n\U{0B}", "<|>&;()";
    assert " \t\r\n\U{0B}<|>&;()" == a + b;
  }

  // ---- Words

  /** Every argument and file name of a command is a piece of the line that is not empty, has none of the
      blanks and symbols in it, and is followed by one of them or by the end of the line. */
  lemma WordsAreWhole(s: string, w: Word)
    requires ParseCmd(s).Ok? && w in Words(ParseCmd(s).value)
    ensures w.q < w.eq <= |s|
    ensures forall k :: w.q <= k < w.eq ==> s[k] !in " \t\r\n\U{0B}<|>&;()"
    ensures w.eq == |s| || s[w.eq] in " \t\r\n\U{0B}<|>&;()"
  {
    LineWords(s, 0);
    assert WordOk(s, w);
    forall k | w.q <= k < w.eq ensures s[k] !in " \t\r\n\U{0B}<|>&;()" { Special(s[k]); }
    if w.eq < |s| { Special(s[w.eq]); }
  }

  /** Not empty, and none of the blanks and symbols or NUL in it. */
  predicate Plain(u: string) { |u| > 0 && forall k :: 0 <= k < |u| ==> u[k] !in " \t\r\n\U{0B}<|>&;()" && u[k] != '\0' }

  lemma PlainLegal(u: string)
    requires Plain(u)
    ensures LegalWord(u)
  {
    forall k | 0 <= k < |u| ensures IsWordChar(u[k]) { Special(u[k]); }
  }

  /** One of the five blanks between two words makes two arguments of them; without it they are one. */
  lemma BlankSeparates(u: string, v: string, c: char)
    requires Plain(u) && Plain(v) && c in " \t\r\n\U{0B}"
    ensures
      var s := u + [c] + v;
      ParseCmd(s).Ok? && Text(s, ParseCmd(s).value) == Exec([u, v])
    ensures ParseCmd(u + v).Ok? && Text(u + v, ParseCmd(u + v).value) == Exec([u + v])
  {
    hide ParseCmd, Text;
    PlainLegal(u);
    PlainLegal(v);
    var one, two := [u + v], [u, v];
    assert Plain(u + v);
    PlainLegal(u + v);
    ShellShow.WordsAlone(one);
    ShellShow.WordsAlone(two);
    assert two[1..] == [v];
    var a, b, m := u + [c] + v, u + " " + v, u + [c] + " " + v;
    assert RenderArgs(one) == u + v && RenderArgs(two) == b;
    Special(c);
    var n := |u|;
    assert a[..n + 1] == u + [c] && a[n + 1..] == v && a[..n + 1] + [' '] + a[n + 1..] == m;
    assert b[..n] == u && b[n..] == " " + v && b[..n] + [c] + b[n..] == m;
    Five(' ');
    Special(' ');
    BlankMeansNothing(a, n + 1, ' ');
    BlankMeansNothing(b, n, c);
  }
}
