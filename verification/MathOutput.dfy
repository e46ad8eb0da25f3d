/**
 What CWEAVE's output routine delivers for a text that `translate` returned: its flattening,
 with the leaves spelled out, so that the math balance of the translation is that of the
 output (cweb/cweave.c:2970-2977, 3290-3382).
 */
module MathOutput {
  import opened ScrapGrammar
  import opened ScrapText
  import opened ScrapRewrite
  import opened ScrapInvariants
  import opened ScrapContent
  import opened ScrapLayout
  import Translate
  import WeaveOutput

  /** The tokens delivered, in order. */
  ghost function Tokens(out: seq<WeaveOutput.Delivery>): seq<Token> {
    if out == [] then [] else [out[0].tok] + Tokens(out[1..])
  }

  lemma {:induction false} TokensConcat(a: seq<WeaveOutput.Delivery>, b: seq<WeaveOutput.Delivery>)
    ensures Tokens(a + b) == Tokens(a) + Tokens(b)
  {
    if a == [] {
      assert a + b == b;
    } else {
      TokensConcat(a[1..], b);
      assert (a + b)[1..] == a[1..] + b;
    }
  }

  lemma TokensOne(d: WeaveOutput.Delivery)
    ensures Tokens([d]) == [d.tok]
  {
    assert [d][1..] == [];
  }

  /** What is delivered for one token. */
  ghost function SpellToken(texts: seq<seq<Token>>, tok: Token): seq<Token> {
    Tokens(WeaveOutput.ExpandToken(texts, tok, WeaveOutput.OuterMode, 0, |texts|))
  }

  ghost function SpellAtom(texts: seq<seq<Token>>, a: Atom): seq<Token> {
    match a
    case Leaf(t) => SpellToken(texts, Ref(t))
    case Mk(m) => [Sym(m)]
    case Other(tok) => SpellToken(texts, tok)
  }

  /** A flattened text with its leaves spelled out. */
  ghost function Spell(texts: seq<seq<Token>>, atoms: seq<Atom>): seq<Token> {
    if atoms == [] then [] else SpellAtom(texts, atoms[0]) + Spell(texts, atoms[1..])
  }

  lemma {:induction false} SpellConcat(texts: seq<seq<Token>>, a: seq<Atom>, b: seq<Atom>)
    ensures Spell(texts, a + b) == Spell(texts, a) + Spell(texts, b)
  {
    hide SpellAtom;
    if a == [] {
      assert a + b == b;
    } else {
      SpellConcat(texts, a[1..], b);
      assert (a + b)[0] == a[0] && (a + b)[1..] == a[1..] + b;
    }
  }

  lemma SpellOne(texts: seq<seq<Token>>, a: Atom)
    ensures Spell(texts, [a]) == SpellAtom(texts, a)
  {
    assert [a][1..] == [];
  }

  /** Mode and level do not show in the tokens; nor does a bound that no reference reaches. */
  lemma {:induction false} SameTokens(texts: seq<seq<Token>>, ts: seq<Token>, mode: WeaveOutput.Mode, level: nat,
                                      mode': WeaveOutput.Mode, level': nat, bound: nat)
    ensures Tokens(WeaveOutput.Expand(texts, ts, mode, level, bound)) == Tokens(WeaveOutput.Expand(texts, ts, mode', level', bound))
    decreases bound, |ts|
  {
    if ts != [] {
      var tok := ts[0];
      if (tok.Ref? || tok.Inner?) && tok.t < bound && tok.t < |texts| {
        SameTokens(texts, texts[tok.t], if tok.Inner? then WeaveOutput.InnerMode else mode, level + 1,
                   if tok.Inner? then WeaveOutput.InnerMode else mode', level' + 1, tok.t);
      }
      SameTokens(texts, ts[1..], mode, level, mode', level', bound);
      TokensConcat(WeaveOutput.ExpandToken(texts, tok, mode, level, bound), WeaveOutput.Expand(texts, ts[1..], mode, level, bound));
      TokensConcat(WeaveOutput.ExpandToken(texts, tok, mode', level', bound), WeaveOutput.Expand(texts, ts[1..], mode', level', bound));
    }
  }

  /** The output for a token list is its flattening with the leaves spelled out. */
  lemma {:induction false} OutputFlattens(texts: seq<seq<Token>>, base: nat, ts: seq<Token>, mode: WeaveOutput.Mode, level: nat,
                                          bound: nat)
    requires RefsBelow(ts, bound) && bound <= |texts| && RefsLower(texts)
    ensures Tokens(WeaveOutput.Expand(texts, ts, mode, level, bound)) == Spell(texts, Flat(texts, base, ts, bound))
    decreases bound, |ts|
  {
    if ts != [] {
      OutputFlattensToken(texts, base, ts[0], mode, level, bound);
      OutputFlattens(texts, base, ts[1..], mode, level, bound);
      hide SpellAtom;
      TokensConcat(WeaveOutput.ExpandToken(texts, ts[0], mode, level, bound), WeaveOutput.Expand(texts, ts[1..], mode, level, bound));
      SpellConcat(texts, FlatToken(texts, base, ts[0], bound), Flat(texts, base, ts[1..], bound));
    }
  }

  lemma {:induction false} OutputFlattensToken(texts: seq<seq<Token>>, base: nat, tok: Token, mode: WeaveOutput.Mode, level: nat,
                                               bound: nat)
    requires (tok.Ref? || tok.Inner? ==> tok.t < bound) && bound <= |texts| && RefsLower(texts)
    ensures Tokens(WeaveOutput.ExpandToken(texts, tok, mode, level, bound)) == Spell(texts, FlatToken(texts, base, tok, bound))
    decreases bound, 0
  {
    if tok.Ref? && base <= tok.t {
      OutputFlattens(texts, base, texts[tok.t], mode, level + 1, tok.t);
    } else {
      var a := if tok.Sym? then Mk(tok.m) else if tok.Ref? then Leaf(tok.t) else Other(tok);
      SpellOne(texts, a);
      if tok.Ref? || tok.Inner? {
        SameTokens(texts, texts[tok.t], if tok.Inner? then WeaveOutput.InnerMode else mode, level + 1,
                   if tok.Inner? then WeaveOutput.InnerMode else WeaveOutput.OuterMode, 1, tok.t);
      } else {
        TokensOne(WeaveOutput.Delivery(tok, mode, level));
        TokensOne(WeaveOutput.Delivery(tok, WeaveOutput.OuterMode, 0));
      }
    }
  }

  // ----- Modes -----

  /** The mode of TeX behind the tokens. */
  ghost function TokenMode(ts: seq<Token>, math: bool): bool
    decreases |ts|
  {
    if ts == [] then math else TokenMode(ts[1..], if ts[0] == Sym(Ch('$')) then !math else math)
  }

  lemma {:induction false} TokenModeConcat(a: seq<Token>, b: seq<Token>, math: bool)
    ensures TokenMode(a + b, math) == TokenMode(b, TokenMode(a, math))
    decreases |a|
  {
    if a == [] {
      assert a + b == b;
    } else {
      TokenModeConcat(a[1..], b, if a[0] == Sym(Ch('$')) then !math else math);
      assert (a + b)[1..] == a[1..] + b;
    }
  }

  /** What stands for a leaf, or for any token that is no mark, leaves the mode as it is. */
  ghost predicate Neutral(texts: seq<seq<Token>>, a: Atom) {
    a.Mk? || forall math :: TokenMode(SpellAtom(texts, a), math) == math
  }

  /** Then the tokens of each atom are delivered in the mode in which the flattened text has it. */
  lemma {:induction false} OutputModes(texts: seq<seq<Token>>, atoms: seq<Atom>, math: bool)
    requires forall i :: 0 <= i < |atoms| ==> Neutral(texts, atoms[i])
    ensures TokenMode(Spell(texts, atoms), math) == Mode(atoms, math)
    decreases |atoms|
  {
    hide SpellAtom;
    if atoms != [] {
      var a := atoms[0];
      AtomMode(texts, a, math);
      OutputModes(texts, atoms[1..], Turned(a, math));
      TokenModeConcat(SpellAtom(texts, a), Spell(texts, atoms[1..]), math);
    }
  }

  lemma AtomMode(texts: seq<seq<Token>>, a: Atom, math: bool)
    requires Neutral(texts, a)
    ensures TokenMode(SpellAtom(texts, a), math) == Turned(a, math)
  {
    if a.Mk? { assert [Sym(a.m)][1..] == []; }
  }

  /**
   The tokens out spell the flattened text atoms; and if every leaf leaves the mode as it is,
   they end outside math, and those of each part come in the mode in which atoms has that part.
   */
  ghost predicate Delivers(texts: seq<seq<Token>>, atoms: seq<Atom>, out: seq<Token>) {
    && out == Spell(texts, atoms)
    && (forall a, b :: atoms == a + b ==> out == Spell(texts, a) + Spell(texts, b))
    && ((forall i :: 0 <= i < |atoms| ==> Neutral(texts, atoms[i])) ==>
          !TokenMode(out, false) && forall a, b :: atoms == a + b ==> TokenMode(Spell(texts, a), false) == Mode(a, false))
  }

  /** A text that is balanced when it is flattened is balanced when it is printed. */
  lemma BalancedDelivered(tag: seq<Math>, texts: seq<seq<Token>>, base: nat, t: nat, mode: WeaveOutput.Mode, level: nat)
    requires t < |texts| && RefsLower(texts) && Exec(tag, At(false), FlatText(texts, base, t)) == At(false)
    ensures Delivers(texts, FlatText(texts, base, t), Tokens(WeaveOutput.Expand(texts, [Ref(t)], mode, level, t + 1)))
  {
    hide Exec, FlatText, Spell, WeaveOutput.Expand, Tokens, TokenMode, Mode, Neutral;
    var atoms := FlatText(texts, base, t);
    TextFlat(texts, base, t);
    OutputFlattens(texts, base, [Ref(t)], mode, level, t + 1);
    ExecMode(tag, atoms, false);
    forall a, b | atoms == a + b ensures Spell(texts, atoms) == Spell(texts, a) + Spell(texts, b) {
      SpellConcat(texts, a, b);
    }
    if forall i :: 0 <= i < |atoms| ==> Neutral(texts, atoms[i]) {
      OutputModes(texts, atoms, false);
      forall a, b | atoms == a + b ensures TokenMode(Spell(texts, a), false) == Mode(a, false) {
        assert forall i :: 0 <= i < |a| ==> a[i] == atoms[i];
        OutputModes(texts, a, false);
      }
    }
  }

  lemma TextFlat(texts: seq<seq<Token>>, base: nat, t: nat)
    requires t < |texts|
    ensures Flat(texts, base, [Ref(t)], t + 1) == FlatText(texts, base, t)
  {
    assert [Ref(t)][1..] == [];
  }

  /** So it is with the text that `translate` returns, wherever it is printed. */
  lemma TranslationDelivered(tag: seq<Math>, orig: seq<Cat>, st: State, forceLines: bool, mode: WeaveOutput.Mode, level: nat)
    requires Fresh(tag, st) && Typed(orig, st)
    ensures Reduced(st, forceLines).mem.Frozen()
    ensures var end := Reduced(st, forceLines);
      var texts, t := end.mem.Append(Finish(end.scraps, |end.scraps|)).Texts(), end.mem.Count();
      Delivers(texts, FlatText(texts, st.mem.Count(), t), Tokens(WeaveOutput.Expand(texts, [Ref(t)], mode, level, t + 1)))
  {
    hide Reduced, Exec, Content, FlatText, Delivers, KeepsAll, Typed, Bracketed, Leaves, BracketsApart;
    Translate.TranslationIsSound(tag, orig, st, forceLines);
    var end := Reduced(st, forceLines);
    BalancedDelivered(tag, end.mem.Append(Finish(end.scraps, |end.scraps|)).Texts(), st.mem.Count(), end.mem.Count(), mode, level);
  }
}
