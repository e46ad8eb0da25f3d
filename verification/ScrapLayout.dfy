/**
 Layout tokens in math: only those that a production appends with `app`, without looking at
 the mode, can end up there; what `big_app` appends never does (cweb/cweave.c:2003-2018).
 */
module ScrapLayout {
  import opened ScrapGrammar
  import opened ScrapText
  import opened ScrapRewrite
  import opened ScrapInvariants

  /** A token that `big_app` puts outside math. */
  predicate KeptOut(m: Mark) {
    NeedOf(m) == No
  }

  predicate Turned(a: Atom, math: bool) {
    if a == Mk(Ch('$')) then !math else math
  }

  /** The mode at the end of a text that starts in the given mode. */
  ghost function Mode(atoms: seq<Atom>, math: bool): bool
    decreases |atoms|
  {
    if atoms == [] then math else Mode(atoms[1..], Turned(atoms[0], math))
  }

  /** How many such tokens TeX meets in math. */
  ghost function InMath(m: Mark, atoms: seq<Atom>, math: bool): nat
    decreases |atoms|
  {
    if atoms == [] then 0
    else (if atoms[0] == Mk(m) && math then 1 else 0) + InMath(m, atoms[1..], Turned(atoms[0], math))
  }

  lemma {:induction false} InMathConcat(m: Mark, a: seq<Atom>, b: seq<Atom>, math: bool)
    ensures InMath(m, a + b, math) == InMath(m, a, math) + InMath(m, b, Mode(a, math))
    ensures Mode(a + b, math) == Mode(b, Mode(a, math))
    decreases |a|
  {
    if a == [] {
      assert a + b == b;
    } else {
      InMathConcat(m, a[1..], b, Turned(a[0], math));
      assert (a + b)[1..] == a[1..] + b;
    }
  }

  lemma InMathOne(m: Mark, a: Atom, math: bool)
    ensures InMath(m, [a], math) == if a == Mk(m) && math then 1 else 0
    ensures Mode([a], math) == Turned(a, math)
  {
    assert [a][1..] == [];
  }

  lemma InMathSnoc(m: Mark, f: seq<Atom>, a: Atom, math: bool)
    ensures InMath(m, f + [a], math) == InMath(m, f, math) + if a == Mk(m) && Mode(f, math) then 1 else 0
    ensures Mode(f + [a], math) == Turned(a, Mode(f, math))
  {
    hide InMath, Mode;
    InMathConcat(m, f, [a], math);
    InMathOne(m, a, Mode(f, math));
  }

  lemma {:induction false} ExecMode(tag: seq<Math>, atoms: seq<Atom>, math: bool)
    requires Exec(tag, At(math), atoms).At?
    ensures Exec(tag, At(math), atoms) == At(Mode(atoms, math))
    decreases |atoms|
  {
    if atoms != [] {
      assert ExecAtom(tag, math, atoms[0]) == At(Turned(atoms[0], math));
      ExecMode(tag, atoms[1..], Turned(atoms[0], math));
    }
  }

  /** The mode the pen is in. */
  lemma PenMode(tag: seq<Math>, texts: seq<seq<Token>>, base: nat, p: Pen)
    requires PenMoves(tag, texts, base, p)
    ensures var f := Flat(texts, base, p.out, |texts|);
      && (p.init == Maybe <==> p.cur == Maybe)
      && (p.cur == Maybe ==> Mode(f, true) && !Mode(f, false))
      && (p.cur != Maybe ==> (Mode(f, p.init == Yes) <==> p.cur == Yes))
  {
    var f := Flat(texts, base, p.out, |texts|);
    if p.init == Maybe {
      ExecMode(tag, f, true);
      ExecMode(tag, f, false);
    } else {
      ExecMode(tag, f, p.init == Yes);
    }
  }

  /** The most that a text of this mathness can have in math, in any mode it may meet. */
  ghost function Most(m: Mark, atoms: seq<Atom>, left: Math): nat {
    if left == Maybe then
      var x, y := InMath(m, atoms, true), InMath(m, atoms, false);
      if x < y then y else x
    else InMath(m, atoms, left == Yes)
  }

  ghost function ScrapMost(m: Mark, texts: seq<seq<Token>>, base: nat, s: Scrap): nat {
    Most(m, FlatText(texts, base, s.trans), s.left)
  }

  ghost function PenMost(m: Mark, texts: seq<seq<Token>>, base: nat, p: Pen): nat {
    Most(m, Flat(texts, base, p.out, |texts|), p.init)
  }

  /** A text that fits either mode has no token that would be in math in one of them; then the counts below are exact. */
  ghost predicate ScrapCalm(m: Mark, texts: seq<seq<Token>>, base: nat, s: Scrap) {
    s.left == Maybe ==> ScrapMost(m, texts, base, s) == 0
  }

  ghost predicate PenCalm(m: Mark, texts: seq<seq<Token>>, base: nat, p: Pen) {
    p.init == Maybe ==> PenMost(m, texts, base, p) == 0
  }

  /** Every scrap is calm. */
  ghost predicate AllCalm(m: Mark, texts: seq<seq<Token>>, base: nat, scraps: seq<Scrap>) {
    forall i :: 0 <= i < |scraps| ==> ScrapCalm(m, texts, base, scraps[i])
  }

  /** Every scrap moves TeX as it should. */
  ghost predicate ListMoves(tag: seq<Math>, texts: seq<seq<Token>>, base: nat, scraps: seq<Scrap>) {
    forall i :: 0 <= i < |scraps| ==> ScrapMoves(tag, texts, base, scraps[i])
  }

  lemma MovesAll(tag: seq<Math>, st: State, base: nat)
    requires st.mem.Frozen() && AllMove(tag, st, base)
    ensures ListMoves(tag, st.mem.Texts(), base, st.scraps)
  {
  }

  // ----- Appending -----

  /** The tokens that change the mode are not among those counted. */
  lemma SwitchedMost(m: Mark, f: seq<Atom>, need: Math, b: bool)
    requires KeptOut(m)
    ensures var s := if need == Yes then OPEN_MATH else CLOSE_MATH;
      InMath(m, f + [Mk(s[0].m)] + [Mk(s[1].m)] + [Mk(s[2].m)], b) == InMath(m, f, b)
  {
    hide InMath, Mode;
    var s := if need == Yes then OPEN_MATH else CLOSE_MATH;
    InMathSnoc(m, f, Mk(s[0].m), b);
    InMathSnoc(m, f + [Mk(s[0].m)], Mk(s[1].m), b);
    InMathSnoc(m, f + [Mk(s[0].m)] + [Mk(s[1].m)], Mk(s[2].m), b);
  }

  lemma SwitchMost(tag: seq<Math>, m: Mark, texts: seq<seq<Token>>, base: nat, p: Pen, need: Math)
    requires PenMoves(tag, texts, base, p) && need != Maybe && KeptOut(m)
    ensures PenMost(m, texts, base, SwitchTo(p, need)) <= PenMost(m, texts, base, p)
    ensures PenCalm(m, texts, base, p) ==> PenMost(m, texts, base, SwitchTo(p, need)) == PenMost(m, texts, base, p)
  {
    hide Flat, Exec, InMath, Mode, KeptOut;
    PenMode(tag, texts, base, p);
    if p.cur != Maybe && p.cur != need {
      SwitchFlat(texts, base, p, need);
      SwitchedMost(m, Flat(texts, base, p.out, |texts|), need, p.init == Yes);
    }
  }

  lemma WholeMost(tag: seq<Math>, m: Mark, texts: seq<seq<Token>>, base: nat, p: Pen, s: Scrap)
    requires PenMoves(tag, texts, base, p) && ScrapMoves(tag, texts, base, s) && KeptOut(m)
    ensures PenMost(m, texts, base, BigApp1(p, s)) <= PenMost(m, texts, base, p) + ScrapMost(m, texts, base, s)
    ensures PenCalm(m, texts, base, p) && ScrapCalm(m, texts, base, s) ==>
      && PenMost(m, texts, base, BigApp1(p, s)) == PenMost(m, texts, base, p) + ScrapMost(m, texts, base, s)
      && PenCalm(m, texts, base, BigApp1(p, s))
  {
    hide Flat, FlatText, Exec, InMath, Mode, SwitchTo, Most, KeptOut;
    if s.left != Maybe {
      SwitchMoves(tag, texts, base, p, s.left);
      SwitchMost(tag, m, texts, base, p, s.left);
    }
    var q := if s.left == Maybe then p else SwitchTo(p, s.left);
    RefMost(tag, m, texts, base, q, s);
  }

  /** A pen in a mode that suits the scrap. */
  lemma RefMost(tag: seq<Math>, m: Mark, texts: seq<seq<Token>>, base: nat, q: Pen, s: Scrap)
    requires PenMoves(tag, texts, base, q) && (s.left != Maybe ==> q.cur == s.left)
    ensures var x := Flat(texts, base, q.out + [Ref(s.trans)], |texts|);
      && Most(m, x, q.init) <= PenMost(m, texts, base, q) + ScrapMost(m, texts, base, s)
      && (PenCalm(m, texts, base, q) && ScrapCalm(m, texts, base, s) ==>
            Most(m, x, q.init) == PenMost(m, texts, base, q) + ScrapMost(m, texts, base, s))
  {
    hide Flat, FlatText, Exec, Most, Mode;
    PenMode(tag, texts, base, q);
    FlatSnoc(texts, base, q.out, Ref(s.trans), |texts|);
    FlatTextIs(texts, base, s.trans);
    MostConcat(m, Flat(texts, base, q.out, |texts|), FlatText(texts, base, s.trans), q.init, q.cur, s.left);
  }

  lemma MostConcat(m: Mark, f: seq<Atom>, g: seq<Atom>, init: Math, cur: Math, left: Math)
    requires init == Maybe <==> cur == Maybe
    requires if cur == Maybe then Mode(f, true) && !Mode(f, false) else Mode(f, init == Yes) <==> cur == Yes
    requires left != Maybe ==> cur == left
    ensures Most(m, f + g, init) <= Most(m, f, init) + Most(m, g, left)
    ensures (init == Maybe ==> Most(m, f, init) == 0) && (left == Maybe ==> Most(m, g, left) == 0) ==>
      Most(m, f + g, init) == Most(m, f, init) + Most(m, g, left)
  {
    hide InMath, Mode;
    InMathConcat(m, f, g, true);
    InMathConcat(m, f, g, false);
  }

  lemma BigMost(tag: seq<Math>, m: Mark, texts: seq<seq<Token>>, base: nat, p: Pen, mark: Mark)
    requires PenMoves(tag, texts, base, p) && KeptOut(m)
    ensures PenMost(m, texts, base, BigApp(p, mark)) <= PenMost(m, texts, base, p)
    ensures PenCalm(m, texts, base, p) ==>
      PenMost(m, texts, base, BigApp(p, mark)) == PenMost(m, texts, base, p) && PenCalm(m, texts, base, BigApp(p, mark))
  {
    hide Flat, Exec, InMath, Mode, SwitchTo;
    var q := SwitchTo(p, NeedOf(mark));
    SwitchMoves(tag, texts, base, p, NeedOf(mark));
    SwitchMost(tag, m, texts, base, p, NeedOf(mark));
    PenMode(tag, texts, base, q);
    FlatSnoc(texts, base, q.out, Sym(mark), |texts|);
    InMathSnoc(m, Flat(texts, base, q.out, |texts|), Mk(mark), q.init == Yes);
  }

  lemma RawMost(m: Mark, texts: seq<seq<Token>>, base: nat, p: Pen, mark: Mark)
    ensures var x, y := PenMost(m, texts, base, p.(out := p.out + [Sym(mark)])), PenMost(m, texts, base, p);
      if mark == m then x <= y + 1 else x == y
  {
    hide Flat, InMath, Mode;
    FlatSnoc(texts, base, p.out, Sym(mark), |texts|);
    InMathSnoc(m, Flat(texts, base, p.out, |texts|), Mk(mark), true);
    InMathSnoc(m, Flat(texts, base, p.out, |texts|), Mk(mark), false);
  }

  /** Only `app` of the token itself can add to the count. */
  lemma ItemMost(tag: seq<Math>, m: Mark, texts: seq<seq<Token>>, base: nat, p: Pen, item: Item, scraps: seq<Scrap>, pos: nat)
    requires PenMoves(tag, texts, base, p) && KeptOut(m) && !item.Angle?
    requires item.Whole? ==> pos + item.i < |scraps| && ScrapMoves(tag, texts, base, scraps[pos + item.i])
    ensures PenMost(m, texts, base, AppendItem(p, item, scraps, pos))
         <= PenMost(m, texts, base, p) + (if item.Whole? then ScrapMost(m, texts, base, scraps[pos + item.i]) else 0)
          + (if item == Raw(m) then 1 else 0)
    ensures
      && PenCalm(m, texts, base, p) && item != Raw(m) && (item.Whole? ==> ScrapCalm(m, texts, base, scraps[pos + item.i]))
      ==>
      && PenMost(m, texts, base, AppendItem(p, item, scraps, pos))
         == PenMost(m, texts, base, p) + (if item.Whole? then ScrapMost(m, texts, base, scraps[pos + item.i]) else 0)
      && PenCalm(m, texts, base, AppendItem(p, item, scraps, pos))
  {
    hide SwitchTo, PenMost, ScrapMost, KeptOut, ScrapMoves, PenMoves;
    match item
    case Whole(i) => WholeMost(tag, m, texts, base, p, scraps[pos + i]);
    case Big(mark) => BigMost(tag, m, texts, base, p, mark);
    case Raw(mark) => RawMost(m, texts, base, p, mark);
  }

  // ----- Productions -----

  ghost function ListMost(m: Mark, texts: seq<seq<Token>>, base: nat, scraps: seq<Scrap>): nat {
    if scraps == [] then 0 else ScrapMost(m, texts, base, scraps[0]) + ListMost(m, texts, base, scraps[1..])
  }

  lemma {:induction false} ListMostConcat(m: Mark, texts: seq<seq<Token>>, base: nat, a: seq<Scrap>, b: seq<Scrap>)
    ensures ListMost(m, texts, base, a + b) == ListMost(m, texts, base, a) + ListMost(m, texts, base, b)
  {
    hide ScrapMost;
    if a == [] {
      assert a + b == b;
    } else {
      ListMostConcat(m, texts, base, a[1..], b);
      assert (a + b)[1..] == a[1..] + b;
    }
  }

  lemma ListMostOne(m: Mark, texts: seq<seq<Token>>, base: nat, s: Scrap)
    ensures ListMost(m, texts, base, [s]) == ScrapMost(m, texts, base, s)
  {
    assert [s][1..] == [];
  }

  lemma {:induction false} ListMostFrame(m: Mark, texts: seq<seq<Token>>, texts': seq<seq<Token>>, base: nat,
                                         a: seq<Scrap>, b: seq<Scrap>)
    requires |a| == |b| && forall i :: 0 <= i < |a| ==> a[i].trans == b[i].trans < |texts| && a[i].left == b[i].left
    requires Extends(texts, texts', base) && RefsLower(texts)
    ensures ListMost(m, texts', base, b) == ListMost(m, texts, base, a)
  {
    hide Most, FlatText;
    if a != [] {
      FlatTextFrame(texts, texts', base, a[0].trans);
      ListMostFrame(m, texts, texts', base, a[1..], b[1..]);
    }
  }

  /** How often a production appends the token with `app`, from item i on. */
  function Raws(m: Mark, items: seq<Item>, i: nat): nat
    requires i <= |items|
    decreases |items| - i
  {
    if i == |items| then 0 else (if items[i] == Raw(m) then 1 else 0) + Raws(m, items, i + 1)
  }

  lemma {:induction false} AppendFromMost(tag: seq<Math>, m: Mark, texts: seq<seq<Token>>, base: nat, p: Pen, items: seq<Item>,
                                          i: nat, scraps: seq<Scrap>, pos: nat, at: nat, k: nat)
    requires i <= |items| && InRange(items, |scraps|, pos) && Covers(items, i, at, k) && pos + at + k <= |scraps|
    requires ListMoves(tag, texts, base, scraps) && PenMoves(tag, texts, base, p) && KeptOut(m)
    requires FitsRaw(p, if i > 0 then items[i - 1] else Raw(Noop))
    ensures PenMost(m, texts, base, AppendFrom(p, items, i, scraps, pos))
         <= PenMost(m, texts, base, p) + ListMost(m, texts, base, scraps[pos + at..pos + at + k]) + Raws(m, items, i)
    ensures PenCalm(m, texts, base, p) && AllCalm(m, texts, base, scraps) && Raws(m, items, i) == 0 ==>
      && PenMost(m, texts, base, AppendFrom(p, items, i, scraps, pos))
         == PenMost(m, texts, base, p) + ListMost(m, texts, base, scraps[pos + at..pos + at + k])
      && PenCalm(m, texts, base, AppendFrom(p, items, i, scraps, pos))
    decreases |items| - i
  {
    hide AppendItem, PenMoves, PenMost, PenCalm, ScrapMoves, ScrapMost, ScrapCalm, KeptOut;
    if i < |items| {
      var prev := if i > 0 then items[i - 1] else Raw(Noop);
      var q := AppendItem(p, items[i], scraps, pos);
      AppendItemMoves(tag, texts, base, p, items[i], scraps, pos, prev);
      ItemMost(tag, m, texts, base, p, items[i], scraps, pos);
      if items[i].Whole? {
        var run := scraps[pos + at..pos + at + k];
        assert run[0] == scraps[pos + at] && run[1..] == scraps[pos + at + 1..pos + at + k];
        AppendFromMost(tag, m, texts, base, q, items, i + 1, scraps, pos, at + 1, k - 1);
      } else {
        AppendFromMost(tag, m, texts, base, q, items, i + 1, scraps, pos, at, k);
      }
    }
  }

  lemma BracketMost(m: Mark, texts: seq<seq<Token>>, base: nat, items: seq<Item>, scraps: seq<Scrap>, pos: nat)
    requires |items| == 1 && items[0].Angle? && items[0].m != m
    ensures PenMost(m, texts, base, AppendFrom(BLANK, items, 0, scraps, pos)) == 0
  {
    var mark := items[0].m;
    var p := AppendItem(BLANK, items[0], scraps, pos);
    assert AppendFrom(BLANK, items, 0, scraps, pos) == AppendFrom(p, items, 1, scraps, pos) == p;
    FlatSnoc(texts, base, [], Sym(mark), |texts|);
    assert p.out == [] + [Sym(mark)] && [] + [Mk(mark)] == [Mk(mark)];
    InMathOne(m, Mk(mark), true);
  }

  /** How often a production appends the token with `app`. */
  function Appended(m: Mark, a: Action): nat {
    if a.Rewrite? then Raws(m, a.items, 0) else 0
  }

  lemma BlankMost(tag: seq<Math>, m: Mark, texts: seq<seq<Token>>, base: nat)
    ensures PenMoves(tag, texts, base, BLANK) && PenMost(m, texts, base, BLANK) == 0 && PenCalm(m, texts, base, BLANK)
  {
  }

  lemma CoveredMost(tag: seq<Math>, m: Mark, st: State, a: Action, base: nat)
    requires Sealed(st, base) && Fires(st, a) && a.Rewrite? && Covers(a.items, 0, a.at, a.k) && KeptOut(m)
    requires ListMoves(tag, st.mem.Texts(), base, st.scraps)
    ensures st.pos + a.at + a.k <= |st.scraps|
    ensures PenMost(m, st.mem.Texts(), base, Built(st, a).2)
         <= ListMost(m, st.mem.Texts(), base, st.scraps[st.pos + a.at..st.pos + a.at + a.k]) + Appended(m, a)
    ensures AllCalm(m, st.mem.Texts(), base, st.scraps) && Appended(m, a) == 0 ==>
      && PenMost(m, st.mem.Texts(), base, Built(st, a).2)
         == ListMost(m, st.mem.Texts(), base, st.scraps[st.pos + a.at..st.pos + a.at + a.k])
      && PenCalm(m, st.mem.Texts(), base, Built(st, a).2)
  {
    hide Sound, Apply, Built, PenMost, PenCalm, ListMost, AppendFrom, ListMoves, AllCalm, Covers, InRange, RefsLower, Similar, KeptOut,
      PenMoves;
    var _, scraps, pen := AppliedForm(st, a);
    var texts := st.mem.Texts();
    SameListMoves(tag, m, texts, base, st.scraps, scraps);
    SliceMost(m, texts, texts, base, st.scraps, scraps, st.pos + a.at, st.pos + a.at + a.k);
    BlankMost(tag, m, texts, base);
    AppendFromMost(tag, m, texts, base, BLANK, a.items, 0, scraps, st.pos, a.at, a.k);
  }

  lemma SameListMoves(tag: seq<Math>, m: Mark, texts: seq<seq<Token>>, base: nat, a: seq<Scrap>, b: seq<Scrap>)
    requires Recategorised(a, b) && ListMoves(tag, texts, base, a)
    ensures ListMoves(tag, texts, base, b) && (AllCalm(m, texts, base, a) ==> AllCalm(m, texts, base, b))
  {
    hide Moves, Most, FlatText;
    forall i | 0 <= i < |b|
      ensures ScrapMoves(tag, texts, base, b[i])
      ensures ScrapCalm(m, texts, base, a[i]) ==> ScrapCalm(m, texts, base, b[i])
    {
      assert Similar(a[i], b[i]) && ScrapMoves(tag, texts, base, a[i]);
    }
  }

  lemma SliceMost(m: Mark, texts: seq<seq<Token>>, texts': seq<seq<Token>>, base: nat, a: seq<Scrap>, b: seq<Scrap>,
                  i: nat, j: nat)
    requires Recategorised(a, b) && i <= j <= |a| && Extends(texts, texts', base) && RefsLower(texts)
    requires forall i :: 0 <= i < |a| ==> a[i].trans < |texts|
    ensures ListMost(m, texts', base, b[i..j]) == ListMost(m, texts, base, a[i..j])
  {
    hide ListMost, Extends, RefsLower;
    var x, y := a[i..j], b[i..j];
    forall l | 0 <= l < |x| ensures x[l].trans == y[l].trans < |texts| && x[l].left == y[l].left {
      assert Similar(a[i + l], b[i + l]);
    }
    ListMostFrame(m, texts, texts', base, x, y);
  }

  lemma BuiltMost(tag: seq<Math>, m: Mark, st: State, a: Action, base: nat)
    requires Sealed(st, base) && Fires(st, a) && a.Rewrite? && KeptOut(m)
    requires ListMoves(tag, st.mem.Texts(), base, st.scraps)
    ensures st.pos + a.at + a.k <= |st.scraps|
    ensures PenMost(m, st.mem.Texts(), base, Built(st, a).2)
         <= ListMost(m, st.mem.Texts(), base, st.scraps[st.pos + a.at..st.pos + a.at + a.k]) + Appended(m, a)
  {
    hide Rank, Consumes, Built, Apply, PenMost, ListMost, ListMoves, Covers, AppendFrom;
    if IsBracket(a, WindowAt(st.scraps, st.pos)) {
      var _, scraps, pen := AppliedForm(st, a);
      BracketMost(m, st.mem.Texts(), base, a.items, scraps, st.pos);
    } else {
      hide IsBracket;
      CoveredMost(tag, m, st, a, base);
    }
  }

  ghost function StateMost(m: Mark, st: State, base: nat): nat
    requires st.mem.Frozen()
  {
    ListMost(m, st.mem.Texts(), base, st.scraps)
  }

  lemma SplitMost(m: Mark, texts: seq<seq<Token>>, base: nat, a: seq<Scrap>, b: seq<Scrap>, c: seq<Scrap>)
    ensures ListMost(m, texts, base, a + b + c) == ListMost(m, texts, base, a) + ListMost(m, texts, base, b) + ListMost(m, texts, base, c)
  {
    hide ListMost;
    ListMostConcat(m, texts, base, a + b, c);
    ListMostConcat(m, texts, base, a, b);
  }

  lemma ReplaceMost(m: Mark, texts: seq<seq<Token>>, texts': seq<seq<Token>>, base: nat, old_: seq<Scrap>, scraps: seq<Scrap>,
                    j: nat, k: nat, s: Scrap)
    requires Recategorised(old_, scraps) && j + k <= |scraps| && Extends(texts, texts', base) && RefsLower(texts)
    requires forall i :: 0 <= i < |old_| ==> old_[i].trans < |texts|
    ensures ListMost(m, texts', base, Replace(scraps, j, k, s)) + ListMost(m, texts, base, old_[j..j + k])
         == ListMost(m, texts, base, old_) + ScrapMost(m, texts', base, s)
  {
    hide ListMost, ScrapMost, Extends, RefsLower, Similar, Replace;
    var n := |scraps|;
    SliceMost(m, texts, texts', base, old_, scraps, 0, j);
    SliceMost(m, texts, texts', base, old_, scraps, j + k, n);
    ThreeMost(m, texts', base, scraps, j, k, s);
    ThreeMost(m, texts, base, old_, j, k, s);
  }

  lemma ThreeMost(m: Mark, texts: seq<seq<Token>>, base: nat, scraps: seq<Scrap>, j: nat, k: nat, s: Scrap)
    requires j + k <= |scraps|
    ensures var x, z := ListMost(m, texts, base, scraps[0..j]), ListMost(m, texts, base, scraps[j + k..|scraps|]);
      && ListMost(m, texts, base, scraps) == x + ListMost(m, texts, base, scraps[j..j + k]) + z
      && ListMost(m, texts, base, Replace(scraps, j, k, s)) == x + ScrapMost(m, texts, base, s) + z
  {
    hide ListMost, ScrapMost, Replace;
    InThree(scraps, j, k, s);
    var a, b, c := scraps[0..j], scraps[j..j + k], scraps[j + k..|scraps|];
    SplitMost(m, texts, base, a, b, c);
    SplitMost(m, texts, base, a, [s], c);
    ListMostOne(m, texts, base, s);
  }

  lemma InThree(scraps: seq<Scrap>, j: nat, k: nat, s: Scrap)
    requires j + k <= |scraps|
    ensures scraps == scraps[0..j] + scraps[j..j + k] + scraps[j + k..|scraps|]
    ensures Replace(scraps, j, k, s) == scraps[0..j] + [s] + scraps[j + k..|scraps|]
  {
  }

  /** What a production builds stands for the scraps it replaces. */
  lemma RewriteExact(m: Mark, st: State, a: Action, base: nat)
    requires Sealed(st, base) && Fires(st, a) && a.Rewrite?
    ensures Apply(st, a).mem.Frozen() && st.pos + a.at + a.k <= |st.scraps|
    ensures StateMost(m, Apply(st, a), base)
          + ListMost(m, st.mem.Texts(), base, st.scraps[st.pos + a.at..st.pos + a.at + a.k])
         == StateMost(m, st, base) + PenMost(m, st.mem.Texts(), base, Built(st, a).2)
  {
    hide Sound, Apply, Built, AppendFrom, PenMost, ScrapMost, ListMost, Flat, FlatText, InRange, Recategorised, Extends, Replace,
      RefsLower;
    ApplySealed(st, a, base);
    var mem, scraps, pen := AppliedForm(st, a);
    var texts, texts' := st.mem.Texts(), Apply(st, a).mem.Texts();
    var s := Scrap(a.cat, pen.init, pen.cur, mem.Count());
    PenBecomesScrap([], texts, texts', base, pen, s);
    PenScrapMost(m, texts, texts', base, pen, s);
    ReplaceMost(m, texts, texts', base, st.scraps, scraps, st.pos + a.at, a.k, s);
  }

  lemma RewriteMost(tag: seq<Math>, m: Mark, st: State, a: Action, base: nat)
    requires Sealed(st, base) && Fires(st, a) && a.Rewrite? && KeptOut(m) && AllMove(tag, st, base)
    ensures Apply(st, a).mem.Frozen()
    ensures StateMost(m, Apply(st, a), base) <= StateMost(m, st, base) + Appended(m, a)
  {
    hide Sound, Apply, Built, PenMost, ListMost, StateMost, AllMove, ListMoves, Appended, KeptOut, Sealed;
    RewriteExact(m, st, a, base);
    MovesAll(tag, st, base);
    BuiltMost(tag, m, st, a, base);
  }

  lemma PenScrapMost(m: Mark, texts: seq<seq<Token>>, texts': seq<seq<Token>>, base: nat, p: Pen, s: Scrap)
    requires FlatText(texts', base, s.trans) == Flat(texts, base, p.out, |texts|) && s.left == p.init
    ensures ScrapMost(m, texts', base, s) == PenMost(m, texts, base, p)
    ensures PenCalm(m, texts, base, p) ==> ScrapCalm(m, texts', base, s)
  {
  }

  lemma RelabelMost(m: Mark, st: State, a: Action, base: nat)
    requires Sealed(st, base) && Fires(st, a) && !a.Rewrite?
    ensures Apply(st, a).mem.Frozen() && StateMost(m, Apply(st, a), base) == StateMost(m, st, base)
  {
    hide Sound, Apply, ListMost;
    ApplySealed(st, a, base);
    RelabelledScraps(st, a);
    ListMostFrame(m, st.mem.Texts(), Apply(st, a).mem.Texts(), base, st.scraps, Apply(st, a).scraps);
  }

  // ----- Runs -----

  /** How often a run appends the token with `app`. */
  function AllAppended(m: Mark, run: seq<Action>): nat {
    if run == [] then 0 else Appended(m, run[0]) + AllAppended(m, run[1..])
  }

  lemma {:induction false} RunMost(tag: seq<Math>, m: Mark, st: State, run: seq<Action>, base: nat)
    requires Sealed(st, base) && AllMove(tag, st, base) && IsRun(st, run) && KeptOut(m)
    ensures After(st, run).mem.Frozen()
    ensures StateMost(m, After(st, run), base) <= StateMost(m, st, base) + AllAppended(m, run)
    decreases |run|
  {
    hide Apply, AllMove, StateMost, Appended, KeptOut;
    if run != [] {
      ApplySealed(st, run[0], base);
      ApplyMoves(tag, st, run[0], base);
      if run[0].Rewrite? {
        RewriteMost(tag, m, st, run[0], base);
      } else {
        RelabelMost(m, st, run[0], base);
      }
      RunMost(tag, m, Apply(st, run[0]), run[1..], base);
    }
  }

  lemma {:induction false} FinishMost(tag: seq<Math>, m: Mark, texts: seq<seq<Token>>, base: nat, scraps: seq<Scrap>, j: nat)
    requires j <= |scraps| && ListMoves(tag, texts, base, scraps) && KeptOut(m)
    ensures InMath(m, Flat(texts, base, Finish(scraps, j), |texts|), false) <= ListMost(m, texts, base, scraps[..j])
    ensures AllCalm(m, texts, base, scraps) ==>
      InMath(m, Flat(texts, base, Finish(scraps, j), |texts|), false) == ListMost(m, texts, base, scraps[..j])
  {
    hide Flat, Exec, InMath, Mode, ListMost, ScrapMoves, ScrapCalm, KeptOut;
    if j == 0 {
      NoneFinished(m, texts, base, scraps[..0]);
    } else {
      FinishMost(tag, m, texts, base, scraps, j - 1);
      FinishMoves(tag, texts, base, scraps, j - 1);
      FinishOneMost(tag, m, texts, base, Finish(scraps, j - 1), scraps[j - 1], j > 1);
      assert scraps[..j] == scraps[..j - 1] + [scraps[j - 1]];
      ListMostConcat(m, texts, base, scraps[..j - 1], [scraps[j - 1]]);
      ListMostOne(m, texts, base, scraps[j - 1]);
    }
  }

  lemma NoneFinished(m: Mark, texts: seq<seq<Token>>, base: nat, none: seq<Scrap>)
    requires none == []
    ensures InMath(m, Flat(texts, base, [], |texts|), false) == 0 == ListMost(m, texts, base, none)
  {
  }

  lemma FinishOneMost(tag: seq<Math>, m: Mark, texts: seq<seq<Token>>, base: nat, a: seq<Token>, s: Scrap, spaced: bool)
    requires Exec(tag, At(false), Flat(texts, base, a, |texts|)) == At(false)
    requires ScrapMoves(tag, texts, base, s) && KeptOut(m)
    ensures var out := a + (if spaced then [Sym(Ch(' '))] else []) + (if s.left == Yes then [Sym(Ch('$'))] else [])
                + [Ref(s.trans)] + (if s.right == Yes then [Sym(Ch('$'))] else []);
      var x, y := InMath(m, Flat(texts, base, out, |texts|), false), InMath(m, Flat(texts, base, a, |texts|), false);
      x <= y + ScrapMost(m, texts, base, s) && (ScrapCalm(m, texts, base, s) ==> x == y + ScrapMost(m, texts, base, s))
  {
    hide Flat, FlatText, Exec, InMath, Mode;
    var n := |texts|;
    var b := a + (if spaced then [Sym(Ch(' '))] else []);
    var c := b + (if s.left == Yes then [Sym(Ch('$'))] else []);
    var d := c + [Ref(s.trans)];
    assert a + [] == a && b + [] == b && d + [] == d;
    ExecMode(tag, Flat(texts, base, a, n), false);
    SymMost(m, texts, base, a, Ch(' '));
    SymMost(m, texts, base, b, Ch('$'));
    SymMost(m, texts, base, d, Ch('$'));
    FlatSnoc(texts, base, c, Ref(s.trans), n);
    FlatTextIs(texts, base, s.trans);
    InMathConcat(m, Flat(texts, base, c, n), FlatText(texts, base, s.trans), false);
  }

  lemma SymMost(m: Mark, texts: seq<seq<Token>>, base: nat, a: seq<Token>, mark: Mark)
    ensures InMath(m, Flat(texts, base, a + [Sym(mark)], |texts|), false)
         == InMath(m, Flat(texts, base, a, |texts|), false)
          + if mark == m && Mode(Flat(texts, base, a, |texts|), false) then 1 else 0
    ensures Mode(Flat(texts, base, a + [Sym(mark)], |texts|), false)
         == Turned(Mk(mark), Mode(Flat(texts, base, a, |texts|), false))
  {
    var f := Flat(texts, base, a, |texts|);
    FlatSnoc(texts, base, a, Sym(mark), |texts|);
    InMathSnoc(m, f, Mk(mark), false);
  }

  lemma FreshMost(tag: seq<Math>, m: Mark, st: State)
    requires Fresh(tag, st)
    ensures StateMost(m, st, st.mem.Count()) == 0 && AllCalm(m, st.mem.Texts(), st.mem.Count(), st.scraps)
  {
    forall i | 0 <= i < |st.scraps| ensures ScrapMost(m, st.mem.Texts(), st.mem.Count(), st.scraps[i]) == 0 {
      var t := st.scraps[i].trans;
      assert FlatText(st.mem.Texts(), st.mem.Count(), t) == [Leaf(t)];
      InMathOne(m, Leaf(t), true);
      InMathOne(m, Leaf(t), false);
    }
    NoneMost(m, st.mem.Texts(), st.mem.Count(), st.scraps);
  }

  lemma {:induction false} NoneMost(m: Mark, texts: seq<seq<Token>>, base: nat, scraps: seq<Scrap>)
    requires forall i :: 0 <= i < |scraps| ==> ScrapMost(m, texts, base, scraps[i]) == 0
    ensures ListMost(m, texts, base, scraps) == 0
  {
    hide ScrapMost;
    if scraps != [] { NoneMost(m, texts, base, scraps[1..]); }
  }

  /** Such tokens in math in the text made of the final scraps. */
  ghost function FinalInMath(m: Mark, end: State, base: nat): nat
    requires end.mem.Frozen()
  {
    var out := Finish(end.scraps, |end.scraps|);
    AppendTexts(end.mem, out);
    InMath(m, FlatText(end.mem.Append(out).Texts(), base, end.mem.Count()), false)
  }

  /** The text made of the final scraps has no more in math than they have, and just as many if they are calm. */
  lemma FinalMost(tag: seq<Math>, m: Mark, end: State, base: nat)
    requires Sealed(end, base) && AllMove(tag, end, base) && KeptOut(m)
    ensures FinalInMath(m, end, base) <= StateMost(m, end, base)
    ensures AllCalm(m, end.mem.Texts(), base, end.scraps) ==> FinalInMath(m, end, base) == StateMost(m, end, base)
  {
    hide Exec, Moves, Flat, FlatText, InMath, ScrapMost, ScrapCalm, KeptOut;
    var out, texts := Finish(end.scraps, |end.scraps|), end.mem.Texts();
    MovesAll(tag, end, base);
    FinishMost(tag, m, texts, base, end.scraps, |end.scraps|);
    assert end.scraps[..|end.scraps|] == end.scraps;
    FinishRefs(end.scraps, |end.scraps|, end.mem.Count());
    AppendTexts(end.mem, out);
    PenBecomesScrap(tag, texts, end.mem.Append(out).Texts(), base, Pen(No, No, out), Scrap(Insert, No, No, |texts|));
  }

  /**
   For every kind of token that `big_app` keeps out of math, blanks and opt included: in the
   final text of any run, no more of them are in math than productions have appended with
   `app`. So none is, if none of those productions fired.
   */
  lemma LayoutInMath(tag: seq<Math>, m: Mark, st: State, run: seq<Action>)
    requires Fresh(tag, st) && IsRun(st, run) && KeptOut(m)
    ensures After(st, run).mem.Frozen()
    ensures FinalInMath(m, After(st, run), st.mem.Count()) <= AllAppended(m, run)
  {
    hide Apply, StateMost, FinalInMath, AllAppended, KeptOut, AllMove;
    var base := st.mem.Count();
    FreshMoves(tag, st);
    FreshMost(tag, m, st);
    RunMoves(tag, st, run, base);
    RunMost(tag, m, st, run, base);
    FinalMost(tag, m, After(st, run), base);
  }
}
