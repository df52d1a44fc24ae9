/** `>>` in any command line: doubling a `>` changes nothing but the positions behind it. */
module ShellAppend {
  import opened Shell
  import opened ShellMap

  /** The `>` at `p` is a token of its own. */
  predicate Single(s: string, p: nat) {
    p < |s| && s[p] == '>' && (p > 0 ==> s[p - 1] != '>') && (p + 1 < |s| ==> s[p + 1] != '>')
  }

  function Doubled(s: string, p: nat): string
    requires p < |s|
  {
    s[..p + 1] + ">" + s[p + 1..]
  }

  /** Where position `i` of the line is in the doubled one. */
  function To(p: nat, i: nat): nat { if i <= p then i else i + 1 }

  function Doubling(s: string, p: nat): Edit
    requires p < |s|
  {
    Edit(s, Doubled(s, p), i => To(p, i), i => To(p, i))
  }

  // ---- Tokens

  lemma CharTo(s: string, p: nat, i: nat)
    requires p < |s| && i <= |s|
    ensures |Doubled(s, p)| == |s| + 1 && To(p, i) <= |Doubled(s, p)| && (To(p, i) == |s| + 1 <==> i == |s|)
    ensures i < |s| ==> Doubled(s, p)[To(p, i)] == s[i]
  {
  }

  lemma {:induction false} SpaceTo(s: string, p: nat, i: nat)
    requires Single(s, p) && i <= |s|
    ensures To(p, i) <= |Doubled(s, p)| && SkipSpace(Doubled(s, p), To(p, i)) == To(p, SkipSpace(s, i))
    decreases |s| - i
  {
    hide Doubled;
    CharTo(s, p, i);
    if i < |s| && IsSpace(s[i]) { SpaceTo(s, p, i + 1); }
  }

  lemma {:induction false} WordEndTo(s: string, p: nat, i: nat)
    requires Single(s, p) && i <= |s|
    ensures To(p, i) <= |Doubled(s, p)| && WordEnd(Doubled(s, p), To(p, i)) == To(p, WordEnd(s, i))
    decreases |s| - i
  {
    hide Doubled;
    CharTo(s, p, i);
    if i < |s| && IsWordChar(s[i]) { WordEndTo(s, p, i + 1); }
  }

  lemma AppendTo(s: string, p: nat, q: nat)
    requires Single(s, p) && q < |s|
    ensures Append(Doubled(s, p), To(p, q)) <==> q == p || Append(s, q)
    ensures To(p, q + 1) == To(p, q) + if q == p then 2 else 1
    ensures Append(s, q) ==> To(p, q + 2) == To(p, q) + 2
  {
    hide Doubled;
    CharTo(s, p, q);
    CharTo(s, p, q + 1);
    if q == p { DoubledAt(s, p); }
  }

  lemma DoubledAt(s: string, p: nat)
    requires Single(s, p)
    ensures Append(Doubled(s, p), p)
  {
  }

  lemma WordTokenTo(s: string, p: nat, q: nat)
    requires Single(s, p) && q < |s| && SkipSpace(s, q) == q && !IsSymbol(s[q])
    ensures To(p, q) <= |Doubled(s, p)| && Alike(Doubling(s, p), GetToken(s, q), GetToken(Doubled(s, p), To(p, q)))
  {
    hide SkipSpace, WordEnd, Doubled;
    CharTo(s, p, q);
    SpaceTo(s, p, q);
    WordEndTo(s, p, q);
    SpaceTo(s, p, WordEnd(s, q));
  }

  lemma SymbolPlaces(s: string, p: nat, q: nat)
    requires Single(s, p) && q < |s| && SkipSpace(s, q) == q && IsSymbol(s[q])
    ensures Append(s, q) ==> q + 2 <= |s|
    ensures GetToken(s, q) == if Append(s, q) then Token('+', q, q + 2, SkipSpace(s, q + 2))
                              else Token(s[q], q, q + 1, SkipSpace(s, q + 1))
    ensures
      var t, i := Doubled(s, p), To(p, q);
      && To(p, q + 1) <= |t| && (Append(s, q) ==> To(p, q + 2) <= |t|) && i <= |t|
      && GetToken(t, i) == if Append(s, q) then Token('+', i, To(p, q + 2), SkipSpace(t, To(p, q + 2)))
                           else Token(if q == p then '+' else s[q], i, To(p, q + 1), SkipSpace(t, To(p, q + 1)))
    ensures q == p ==> s[q] == '>'
  {
    hide SkipSpace, Doubled, GetToken, IsSymbol, Single, Append, To;
    SingleIs(s, p);
    SymbolIs(s, q);
    CharTo(s, p, q);
    SpaceTo(s, p, q);
    AppendTo(s, p, q);
    SymbolIs(Doubled(s, p), To(p, q));
    CharTo(s, p, q + 1);
    if Append(s, q) { CharTo(s, p, q + 2); }
  }

  lemma SymbolTokenTo(s: string, p: nat, q: nat)
    requires Single(s, p) && q < |s| && SkipSpace(s, q) == q && IsSymbol(s[q])
    ensures To(p, q) <= |Doubled(s, p)| && Alike(Doubling(s, p), GetToken(s, q), GetToken(Doubled(s, p), To(p, q)))
  {
    hide SkipSpace, Doubled, GetToken, IsSymbol, Single, Append, To, Alike;
    SingleIs(s, p);
    SymbolPlaces(s, p, q);
    if Append(s, q) {
      SpaceTo(s, p, q + 2);
      TokensAlike(s, p, '+', '+', q, q + 2, SkipSpace(s, q + 2));
    } else {
      SpaceTo(s, p, q + 1);
      TokensAlike(s, p, s[q], if q == p then '+' else s[q], q, q + 1, SkipSpace(s, q + 1));
    }
  }

  lemma TokensAlike(s: string, p: nat, k: char, l: char, q: nat, eq: nat, next: nat)
    requires p < |s| && (k == l || (k == '>' && l == '+'))
    ensures Alike(Doubling(s, p), Token(k, q, eq, next), Token(l, To(p, q), To(p, eq), To(p, next)))
  {
  }

  lemma SingleIs(s: string, p: nat)
    requires Single(s, p)
    ensures p < |s| && s[p] == '>' && !Append(s, p)
  {
  }

  lemma TokenTo(s: string, p: nat, i: nat)
    requires Single(s, p) && i <= |s|
    ensures To(p, i) <= |Doubled(s, p)| && Alike(Doubling(s, p), GetToken(s, i), GetToken(Doubled(s, p), To(p, i)))
  {
    hide SkipSpace, WordEnd, Doubled, Alike;
    var q := SkipSpace(s, i);
    SpaceTo(s, p, i);
    TokenAfterSpace(s, i);
    TokenAfterSpace(Doubled(s, p), To(p, i));
    CharTo(s, p, q);
    if q == |s| {
      EndTo(s, p, q);
    } else if IsSymbol(s[q]) {
      SymbolTokenTo(s, p, q);
    } else {
      WordTokenTo(s, p, q);
    }
  }

  lemma EndTo(s: string, p: nat, q: nat)
    requires Single(s, p) && q == |s|
    ensures To(p, q) <= |Doubled(s, p)| && Alike(Doubling(s, p), GetToken(s, q), GetToken(Doubled(s, p), To(p, q)))
  {
  }

  // ---- The words

  lemma WordTextTo(s: string, p: nat, w: Word)
    requires Single(s, p) && WordOk(s, w)
    ensures TextOf(Doubled(s, p), Word(To(p, w.q), To(p, w.eq))) == TextOf(s, w)
  {
    hide WordEnd;
    var t := Doubled(s, p);
    assert w.q <= p < w.eq ==> IsWordChar(s[p]);
    if w.eq <= p {
      assert t[w.q..w.eq] == s[w.q..w.eq];
    } else {
      assert t[w.q + 1..w.eq + 1] == s[w.q..w.eq];
    }
  }

  lemma DoublingKeeps(s: string, p: nat)
    requires Single(s, p)
    ensures Keeps(Doubling(s, p))
  {
    hide Doubled, SkipSpace, GetToken, Alike, TextOf, WordOk;
    var x := Doubling(s, p);
    forall i | 0 <= i <= |s| ensures SeenAlike(x, i) {
      SpaceTo(s, p, i);
      CharTo(s, p, SkipSpace(s, i));
      TokenTo(s, p, i);
    }
    forall w | WordOk(s, w) ensures TextOf(x.t, WordTo(x, w)) == TextOf(s, w) { WordTextTo(s, p, w); }
  }

  /** In any line, whether it parses or not, a `>` and a `>>` in its place mean the same: the same
      command, open modes included, or the same panic. */
  lemma AppendIsOutput(s: string, p: nat)
    requires Single(s, p)
    ensures SameCommand(s, Doubled(s, p))
  {
    DoublingKeeps(s, p);
    KeptCommand(Doubling(s, p));
  }
}
