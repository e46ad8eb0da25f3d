/**
 What every run of CWEAVE's productions keeps: the mode balance of the texts it builds,
 the left-to-right content of the scraps, and the order of text references.
 */
module ScrapInvariants {
  import opened ScrapGrammar
  import opened ScrapText
  import opened ScrapRewrite

  // ----- Runs -----

  /**
   A run: one sound production (or none) after another, whichever the table chooses.
   Nothing below depends on the order in which CWEAVE tries its productions.
   */
  ghost predicate IsRun(st: State, run: seq<Action>)
    decreases |run|
  {
    run == [] || (Fires(st, run[0]) && (ApplyProgress(st, run[0]); IsRun(Apply(st, run[0]), run[1..])))
  }

  ghost predicate Fires(st: State, a: Action) {
    Ready(st) && st.pos < |st.scraps| && Sound(a, WindowAt(st.scraps, st.pos))
  }

  ghost function After(st: State, run: seq<Action>): State
    requires IsRun(st, run)
    decreases |run|
  {
    if run == [] then st else After(Apply(st, run[0]), run[1..])
  }

  // ----- References and leaves -----

  /** New texts hold marks and references only; identifiers live in the leaves. */
  ghost predicate Plain(ts: seq<Token>) {
    forall i :: 0 <= i < |ts| ==> ts[i].Sym? || ts[i].Ref?
  }

  /** `base` is the first text built by this translation. */
  ghost predicate Sealed(st: State, base: nat) {
    Ready(st) && InOrder(st.mem, base)
  }

  ghost predicate InOrder(mem: Memory, base: nat)
    requires mem.Frozen()
  {
    && base <= mem.Count() && RefsLower(mem.Texts())
    && forall t :: base <= t < mem.Count() ==> Plain(mem.Texts()[t])
  }

  lemma RetagTexts(m: Memory, m': Memory, t: nat)
    requires m.Frozen() && Retagged(m, m') && t < m.Count()
    ensures m'.Frozen() && m'.Count() == m.Count()
    ensures Plain(m.Texts()[t]) ==> m'.Texts()[t] == m.Texts()[t]
    ensures forall b :: RefsBelow(m.Texts()[t], b) ==> RefsBelow(m'.Texts()[t], b)
  {
    var x, y := m.Text(t), m'.Text(t);
    assert |x| == |y| && forall i :: 0 <= i < |x| ==> x[i] == m.toks[m.starts[t] + i] && y[i] == m'.toks[m.starts[t] + i];
    assert x == m.Texts()[t] && y == m'.Texts()[t];
    if Plain(x) {
      forall i | 0 <= i < |x| ensures x[i] == y[i] { assert x[i].Sym? || x[i].Ref?; }
    }
  }

  lemma {:induction false} AppendFromPlain(p: Pen, items: seq<Item>, i: nat, scraps: seq<Scrap>, pos: nat, n: nat)
    requires i <= |items| && InRange(items, |scraps|, pos)
    requires forall j :: 0 <= j < |scraps| ==> scraps[j].trans < n
    requires Plain(p.out) && RefsBelow(p.out, n)
    ensures Plain(AppendFrom(p, items, i, scraps, pos).out) && RefsBelow(AppendFrom(p, items, i, scraps, pos).out, n)
    decreases |items| - i
  {
    if i < |items| {
      AppendFromPlain(AppendItem(p, items[i], scraps, pos), items, i + 1, scraps, pos, n);
    }
  }

  /** `texts'` still has every text built so far, so a finished text flattens as before. */
  ghost predicate Extends(texts: seq<seq<Token>>, texts': seq<seq<Token>>, base: nat) {
    |texts| <= |texts'| && forall u :: base <= u < |texts| ==> texts'[u] == texts[u]
  }

  lemma FlatTextFrame(texts: seq<seq<Token>>, texts': seq<seq<Token>>, base: nat, t: nat)
    requires Extends(texts, texts', base) && RefsLower(texts) && t < |texts|
    ensures FlatText(texts', base, t) == FlatText(texts, base, t)
  {
    if base <= t {
      FlatFrame(texts, texts', base, texts[t], t, t);
    }
  }

  /** A production keeps the memory in order and the texts built so far in place. */
  lemma ApplySealed(st: State, a: Action, base: nat)
    requires Sealed(st, base) && Fires(st, a)
    ensures Sealed(Apply(st, a), base)
    ensures Extends(st.mem.Texts(), Apply(st, a).mem.Texts(), base)
    ensures a.Rewrite? ==>
      && st.mem.Count() == Apply(st, a).mem.Count() - 1
      && Apply(st, a).mem.Texts()[st.mem.Count()] == Built(st, a).2.out
      && RefsBelow(Built(st, a).2.out, st.mem.Count())
  {
    ApplyProgress(st, a);
    if a.Rewrite? {
      hide Sound, Apply, Built, InRange, Recategorised, Smaller, AppendFrom, InOrder, Extends, Plain, RefsBelow, Retagged;
      var m, scraps, pen := AppliedForm(st, a);
      BlankPlain(st.mem.Count());
      AppendFromPlain(BLANK, a.items, 0, scraps, st.pos, st.mem.Count());
      InOrderAppend(st.mem, m, pen.out, base);
    }
  }

  lemma BlankPlain(n: nat)
    ensures Plain(BLANK.out) && RefsBelow(BLANK.out, n)
  {
  }

  /** Retagging and one more text keep the memory in order. */
  lemma InOrderAppend(mem: Memory, m: Memory, out: seq<Token>, base: nat)
    requires mem.Frozen() && m.Frozen() && Retagged(mem, m) && InOrder(mem, base)
    requires Plain(out) && RefsBelow(out, mem.Count())
    ensures var mem' := m.Append(out);
      && mem'.Frozen() && InOrder(mem', base) && Extends(mem.Texts(), mem'.Texts(), base)
      && mem'.Count() == mem.Count() + 1 && mem'.Texts()[mem.Count()] == out
  {
    AppendTexts(m, out);
    forall t | 0 <= t < m.Count()
      ensures RefsBelow(m.Texts()[t], t)
      ensures base <= t ==> m.Texts()[t] == mem.Texts()[t]
    {
      RetagTexts(mem, m, t);
      assert RefsBelow(mem.Texts()[t], t);
    }
  }

  // ----- Math balance -----

  /** Every scrap takes TeX from its left mode to its right mode. */
  ghost predicate AllMove(tag: seq<Math>, st: State, base: nat)
    requires st.mem.Frozen()
  {
    forall i :: 0 <= i < |st.scraps| ==> ScrapMoves(tag, st.mem.Texts(), base, st.scraps[i])
  }

  lemma {:induction false} AppendFromMoves(tag: seq<Math>, texts: seq<seq<Token>>, base: nat, p: Pen,
                                           items: seq<Item>, i: nat, scraps: seq<Scrap>, pos: nat, at: nat, k: nat)
    requires i <= |items| && InRange(items, |scraps|, pos) && Covers(items, i, at, k)
    requires forall j :: 0 <= j < |scraps| ==> ScrapMoves(tag, texts, base, scraps[j])
    requires PenMoves(tag, texts, base, p)
    requires FitsRaw(p, if i > 0 then items[i - 1] else Raw(Noop))
    ensures PenMoves(tag, texts, base, AppendFrom(p, items, i, scraps, pos))
    decreases |items| - i
  {
    hide AppendItem, PenMoves, ScrapMoves;
    if i < |items| {
      var prev := if i > 0 then items[i - 1] else Raw(Noop);
      AppendItemMoves(tag, texts, base, p, items[i], scraps, pos, prev);
      var w := if items[i].Whole? then 1 else 0;
      AppendFromMoves(tag, texts, base, AppendItem(p, items[i], scraps, pos), items, i + 1, scraps, pos, at + w, k - w);
    }
  }

  lemma BlankMoves(tag: seq<Math>, texts: seq<seq<Token>>, base: nat)
    ensures PenMoves(tag, texts, base, BLANK)
  {
  }

  lemma BuiltMoves(tag: seq<Math>, st: State, a: Action, base: nat)
    requires Sealed(st, base) && Fires(st, a) && a.Rewrite? && AllMove(tag, st, base)
    ensures PenMoves(tag, st.mem.Texts(), base, Built(st, a).2)
  {
    hide Rank, Built, Apply, PenMoves, ScrapMoves, InRange, InOrder, Covers;
    var m, scraps, pen := AppliedForm(st, a);
    var texts := st.mem.Texts();
    forall j | 0 <= j < |scraps| ensures ScrapMoves(tag, texts, base, scraps[j]) {
      assert ScrapMoves(tag, texts, base, st.scraps[j]);
      SameMoves(tag, texts, base, st.scraps[j], scraps[j]);
    }
    BlankMoves(tag, texts, base);
    if IsBracket(a, WindowAt(st.scraps, st.pos)) {
      AppendItemMoves(tag, texts, base, BLANK, a.items[0], scraps, st.pos, Raw(Noop));
      assert pen == AppendFrom(AppendItem(BLANK, a.items[0], scraps, st.pos), a.items, 1, scraps, st.pos);
    } else {
      AppendFromMoves(tag, texts, base, BLANK, a.items, 0, scraps, st.pos, a.at, a.k);
    }
  }

  lemma SameMoves(tag: seq<Math>, texts: seq<seq<Token>>, base: nat, s: Scrap, s': Scrap)
    requires ScrapMoves(tag, texts, base, s)
    requires s'.left == s.left && s'.right == s.right && s'.trans == s.trans
    ensures ScrapMoves(tag, texts, base, s')
  {
  }

  /** The new scrap's text is the pen's, so it moves TeX as the pen did. */
  lemma PenBecomesScrap(tag: seq<Math>, texts: seq<seq<Token>>, texts': seq<seq<Token>>, base: nat, p: Pen, s: Scrap)
    requires Extends(texts, texts', base) && RefsLower(texts) && base <= |texts| < |texts'|
    requires texts'[|texts|] == p.out && RefsBelow(p.out, |texts|)
    requires s.trans == |texts| && s.left == p.init && s.right == p.cur
    ensures FlatText(texts', base, s.trans) == Flat(texts, base, p.out, |texts|)
    ensures PenMoves(tag, texts, base, p) ==> ScrapMoves(tag, texts', base, s)
  {
    FlatFrame(texts, texts', base, p.out, |texts|, |texts|);
  }

  lemma RelabelledScraps(st: State, a: Action)
    requires Fires(st, a) && !a.Rewrite?
    ensures var st' := Apply(st, a);
      && |st'.scraps| == |st.scraps| && st'.mem == st.mem
      && forall i :: 0 <= i < |st.scraps| ==>
           st'.scraps[i] == st.scraps[i]
           || (!IsOriginal(st'.scraps[i].cat) && st'.scraps[i] == st.scraps[i].(cat := st'.scraps[i].cat))
  {
    ActionFits(st, a);
  }

  lemma ApplyMoves(tag: seq<Math>, st: State, a: Action, base: nat)
    requires Sealed(st, base) && Fires(st, a) && AllMove(tag, st, base)
    ensures Apply(st, a).mem.Frozen() && AllMove(tag, Apply(st, a), base)
  {
    hide Sound, Apply, Built, PenMoves, Flat, Moves, FlatText;
    ApplySealed(st, a, base);
    var st' := Apply(st, a);
    var texts, texts' := st.mem.Texts(), st'.mem.Texts();
    forall i | 0 <= i < |st.scraps| ensures ScrapMoves(tag, texts', base, st.scraps[i]) {
      FlatTextFrame(texts, texts', base, st.scraps[i].trans);
      assert ScrapMoves(tag, texts, base, st.scraps[i]);
    }
    if a.Rewrite? {
      BuiltMoves(tag, st, a, base);
      AppliedScraps(st, a);
      PenBecomesScrap(tag, texts, texts', base, Built(st, a).2, st'.scraps[st.pos + a.at]);
    } else {
      RelabelledScraps(st, a);
    }
  }

  /** Every run of productions keeps the mode of every scrap and the order of references. */
  lemma {:induction false} RunMoves(tag: seq<Math>, st: State, run: seq<Action>, base: nat)
    requires Sealed(st, base) && AllMove(tag, st, base) && IsRun(st, run)
    ensures Sealed(After(st, run), base) && AllMove(tag, After(st, run), base)
    decreases |run|
  {
    hide Apply, AllMove;
    if run != [] {
      ApplySealed(st, run[0], base);
      ApplyMoves(tag, st, run[0], base);
      RunMoves(tag, Apply(st, run[0]), run[1..], base);
    }
  }

  // ----- The final text (cweb/cweave.c:2970-2977) -----

  /** The scraps left at the end, spaced out, each brought back out of math. */
  function Finish(scraps: seq<Scrap>, j: nat): seq<Token>
    requires j <= |scraps|
  {
    if j == 0 then []
    else
      Finish(scraps, j - 1)
      + (if j > 1 then [Sym(Ch(' '))] else [])
      + (if scraps[j - 1].left == Yes then [Sym(Ch('$'))] else [])
      + [Ref(scraps[j - 1].trans)]
      + (if scraps[j - 1].right == Yes then [Sym(Ch('$'))] else [])
  }

  lemma {:induction false} FinishMoves(tag: seq<Math>, texts: seq<seq<Token>>, base: nat, scraps: seq<Scrap>, j: nat)
    requires j <= |scraps| && forall i :: 0 <= i < |scraps| ==> ScrapMoves(tag, texts, base, scraps[i])
    ensures Exec(tag, At(false), Flat(texts, base, Finish(scraps, j), |texts|)) == At(false)
  {
    hide Flat, Exec;
    if j == 0 {
      NothingMoves(tag, texts, base);
    } else {
      FinishMoves(tag, texts, base, scraps, j - 1);
      var s, n := scraps[j - 1], |texts|;
      var a := Finish(scraps, j - 1);
      var b := a + (if j > 1 then [Sym(Ch(' '))] else []);
      var c := b + (if s.left == Yes then [Sym(Ch('$'))] else []);
      var d := c + [Ref(s.trans)];
      assert a + [] == a && b + [] == b && d + [] == d;
      ExecSnoc(tag, texts, base, a, Sym(Ch(' ')));
      ExecSnoc(tag, texts, base, b, Sym(Ch('$')));
      ExecSnoc(tag, texts, base, c, Ref(s.trans));
      ExecSnoc(tag, texts, base, d, Sym(Ch('$')));
      MarkExec(tag, false, Ch(' '));
      MarkExec(tag, false, Ch('$'));
      MarkExec(tag, true, Ch('$'));
      assert ScrapMoves(tag, texts, base, s);
    }
  }

  lemma NothingMoves(tag: seq<Math>, texts: seq<seq<Token>>, base: nat)
    ensures Exec(tag, At(false), Flat(texts, base, [], |texts|)) == At(false)
  {
  }

  lemma MarkExec(tag: seq<Math>, math: bool, m: Mark)
    ensures Exec(tag, At(math), [Mk(m)]) == ExecAtom(tag, math, Mk(m))
  {
    assert [Mk(m)][1..] == [];
  }

  lemma ExecSnoc(tag: seq<Math>, texts: seq<seq<Token>>, base: nat, a: seq<Token>, tok: Token)
    ensures Exec(tag, At(false), Flat(texts, base, a + [tok], |texts|))
         == Exec(tag, Exec(tag, At(false), Flat(texts, base, a, |texts|)), FlatToken(texts, base, tok, |texts|))
  {
    FlatSnoc(texts, base, a, tok, |texts|);
    ExecConcat(tag, At(false), Flat(texts, base, a, |texts|), FlatToken(texts, base, tok, |texts|));
  }

  /** The scraps `app_scrap` leaves: each names a leaf and has the mathness of that leaf. */
  ghost predicate Fresh(tag: seq<Math>, st: State) {
    && Ready(st) && st.pos == 0 && RefsLower(st.mem.Texts())
    && forall i :: 0 <= i < |st.scraps| ==>
         var s := st.scraps[i]; s.trans < |tag| && s.left == tag[s.trans] && s.right == tag[s.trans]
  }

  lemma FreshMoves(tag: seq<Math>, st: State)
    requires Fresh(tag, st)
    ensures Sealed(st, st.mem.Count()) && AllMove(tag, st, st.mem.Count())
  {
    forall i | 0 <= i < |st.scraps| ensures ScrapMoves(tag, st.mem.Texts(), st.mem.Count(), st.scraps[i]) {
      var s := st.scraps[i];
      assert FlatText(st.mem.Texts(), st.mem.Count(), s.trans) == [Leaf(s.trans)];
      assert [Leaf(s.trans)][1..] == [];
    }
  }

  /**
   Math balance. Whatever productions fire, and wherever the reduction stops, the text
   that `translate` returns begins and ends outside math, and in between every yes_math
   leaf stands inside a dollar group and every no_math leaf and layout token outside one
   (the outdents are counted in ScrapOutdent). It refers to lower-numbered texts only.
   */
  lemma MathBalance(tag: seq<Math>, st: State, run: seq<Action>)
    requires Fresh(tag, st) && IsRun(st, run)
    ensures After(st, run).mem.Frozen()
    ensures var end := After(st, run);
      var out := Finish(end.scraps, |end.scraps|);
      && RefsLower(end.mem.Append(out).Texts())
      && Exec(tag, At(false), FlatText(end.mem.Append(out).Texts(), st.mem.Count(), end.mem.Count())) == At(false)
  {
    hide Apply, Exec, Moves, Flat, FlatText;
    var base := st.mem.Count();
    FreshMoves(tag, st);
    RunMoves(tag, st, run, base);
    var end := After(st, run);
    var out := Finish(end.scraps, |end.scraps|);
    var texts := end.mem.Texts();
    FinishMoves(tag, texts, base, end.scraps, |end.scraps|);
    FinishRefs(end.scraps, |end.scraps|, end.mem.Count());
    AppendTexts(end.mem, out);
    PenBecomesScrap(tag, texts, end.mem.Append(out).Texts(), base, Pen(No, No, out), Scrap(Insert, No, No, |texts|));
  }

  lemma {:induction false} FinishRefs(scraps: seq<Scrap>, j: nat, n: nat)
    requires j <= |scraps| && forall i :: 0 <= i < |scraps| ==> scraps[i].trans < n
    ensures RefsBelow(Finish(scraps, j), n)
  {
    if j > 0 { FinishRefs(scraps, j - 1, n); }
  }
}
