/**
 Marks that come in pairs: the indentation of what CWEAVE's reducer makes of the scraps, and
 its braces. No production closes more than was opened, and in the end all is closed.
 */
module ScrapLevels {
  import opened ScrapGrammar
  import opened ScrapText
  import opened ScrapRewrite
  import opened ScrapInvariants

  // ----- Depth -----

  function Shift(kind: Kind, a: Atom): int {
    if a.Mk? then Delta(kind, a.m) else 0
  }

  /** How much deeper the text ends than it begins. */
  ghost function Depth(kind: Kind, atoms: seq<Atom>): int {
    if atoms == [] then 0 else Shift(kind, atoms[0]) + Depth(kind, atoms[1..])
  }

  /** From depth d on the text never goes below 0. */
  ghost predicate Above(kind: Kind, atoms: seq<Atom>, d: int)
    decreases |atoms|
  {
    d >= 0 && (atoms == [] || Above(kind, atoms[1..], d + Shift(kind, atoms[0])))
  }

  lemma {:induction false} AboveConcat(kind: Kind, a: seq<Atom>, b: seq<Atom>, d: int)
    ensures Above(kind, a + b, d) <==> Above(kind, a, d) && Above(kind, b, d + Depth(kind, a))
    ensures Depth(kind, a + b) == Depth(kind, a) + Depth(kind, b)
    decreases |a|
  {
    if a == [] {
      assert a + b == b;
      AboveLow(kind, b, d);
    } else {
      assert (a + b)[0] == a[0] && (a + b)[1..] == a[1..] + b;
      AboveConcat(kind, a[1..], b, d + Shift(kind, a[0]));
    }
  }

  lemma {:induction false} AboveLow(kind: Kind, a: seq<Atom>, d: int)
    ensures Above(kind, a, d) ==> d >= 0 && d + Depth(kind, a) >= 0
    decreases |a|
  {
    if a != [] { AboveLow(kind, a[1..], d + Shift(kind, a[0])); }
  }

  lemma {:induction false} AboveMore(kind: Kind, a: seq<Atom>, d: int, d': int)
    requires Above(kind, a, d) && d <= d'
    ensures Above(kind, a, d')
    decreases |a|
  {
    if a != [] { AboveMore(kind, a[1..], d + Shift(kind, a[0]), d' + Shift(kind, a[0])); }
  }

  lemma DepthOne(kind: Kind, a: Atom, d: int)
    ensures Depth(kind, [a]) == Shift(kind, a) && (Above(kind, [a], d) <==> d >= 0 && d + Shift(kind, a) >= 0)
  {
    assert [a][1..] == [];
  }

  /** One mark more. */
  lemma AboveSnoc(kind: Kind, f: seq<Atom>, a: Atom, d: int)
    ensures Depth(kind, f + [a]) == Depth(kind, f) + Shift(kind, a)
    ensures Above(kind, f + [a], d) <==> Above(kind, f, d) && d + Depth(kind, f) + Shift(kind, a) >= 0
  {
    AboveConcat(kind, f, [a], d);
    DepthOne(kind, a, d + Depth(kind, f));
    AboveLow(kind, f, d);
  }

  // ----- Scraps and pens -----

  /** A heading of a function is left with two indents open. */
  function Extra(kind: Kind, c: Cat): nat {
    if kind.Indents? then 2 * Heading(c) else 0
  }

  /** A text closes nothing that was opened before it, and leaves open what its category says; or more, if that is all that is claimed. */
  ghost predicate Level(kind: Kind, exact: bool, c: Cat, atoms: seq<Atom>) {
    && Above(kind, atoms, 0) && Depth(kind, atoms) >= Extra(kind, c)
    && (exact ==> Depth(kind, atoms) == Extra(kind, c) && !c.EndArg?)
  }

  ghost predicate ScrapLevel(kind: Kind, exact: bool, texts: seq<seq<Token>>, base: nat, s: Scrap) {
    Level(kind, exact, s.cat, FlatText(texts, base, s.trans))
  }

  ghost predicate ListLevel(kind: Kind, exact: bool, texts: seq<seq<Token>>, base: nat, scraps: seq<Scrap>) {
    forall i :: 0 <= i < |scraps| ==> ScrapLevel(kind, exact, texts, base, scraps[i])
  }

  /** The text under construction has at least m open; exactly that, if exact. */
  ghost predicate PenLevel(kind: Kind, exact: bool, texts: seq<seq<Token>>, base: nat, p: Pen, m: int) {
    var f := Flat(texts, base, p.out, |texts|);
    Above(kind, f, 0) && 0 <= m <= Depth(kind, f) && (exact ==> Depth(kind, f) == m)
  }

  /** What is written to change the mode is `${}` or `{}$`. */
  lemma SwitchLevel(kind: Kind, exact: bool, texts: seq<seq<Token>>, base: nat, p: Pen, need: Math, m: int)
    requires PenLevel(kind, exact, texts, base, p, m) && need != Maybe
    ensures PenLevel(kind, exact, texts, base, SwitchTo(p, need), m)
  {
    hide Flat, Above, Depth;
    if p.cur != Maybe && p.cur != need {
      SwitchFlat(texts, base, p, need);
      var s := if need == Yes then OPEN_MATH else CLOSE_MATH;
      var f := Flat(texts, base, p.out, |texts|);
      AboveSnoc(kind, f, Mk(s[0].m), 0);
      AboveSnoc(kind, f + [Mk(s[0].m)], Mk(s[1].m), 0);
      AboveSnoc(kind, f + [Mk(s[0].m)] + [Mk(s[1].m)], Mk(s[2].m), 0);
    }
  }

  lemma WholeLevel(kind: Kind, exact: bool, texts: seq<seq<Token>>, base: nat, p: Pen, s: Scrap, m: int)
    requires PenLevel(kind, exact, texts, base, p, m) && ScrapLevel(kind, exact, texts, base, s)
    ensures PenLevel(kind, exact, texts, base, BigApp1(p, s), m + Extra(kind, s.cat))
  {
    hide Flat, FlatText, Above, Depth, SwitchTo;
    if s.left != Maybe { SwitchLevel(kind, exact, texts, base, p, s.left, m); }
    var q := if s.left == Maybe then p else SwitchTo(p, s.left);
    var f, g := Flat(texts, base, q.out, |texts|), FlatText(texts, base, s.trans);
    FlatSnoc(texts, base, q.out, Ref(s.trans), |texts|);
    FlatTextIs(texts, base, s.trans);
    AboveConcat(kind, f, g, 0);
    AboveMore(kind, g, 0, Depth(kind, f));
  }

  lemma MarkLevel(kind: Kind, exact: bool, texts: seq<seq<Token>>, base: nat, p: Pen, mark: Mark, m: int)
    requires PenLevel(kind, exact, texts, base, p, m) && m + Delta(kind, mark) >= 0
    ensures PenLevel(kind, exact, texts, base, p.(out := p.out + [Sym(mark)]), m + Delta(kind, mark))
  {
    hide Flat, Above, Depth;
    FlatSnoc(texts, base, p.out, Sym(mark), |texts|);
    AboveSnoc(kind, Flat(texts, base, p.out, |texts|), Mk(mark), 0);
  }

  // ----- A production -----

  /** What one item adds, if each scrap adds what its category says. */
  function Adds(kind: Kind, item: Item, scraps: seq<Scrap>, pos: nat): int
    requires item.Whole? ==> pos + item.i < |scraps|
  {
    if item.Whole? then Extra(kind, scraps[pos + item.i].cat) else Delta(kind, item.m)
  }

  /** From item i on, with m open, the items never close more, and leave e open. */
  ghost predicate Leads(kind: Kind, items: seq<Item>, i: nat, scraps: seq<Scrap>, pos: nat, m: int, e: int)
    requires i <= |items| && InRange(items, |scraps|, pos)
    decreases |items| - i
  {
    m >= 0 && if i == |items| then m == e else Leads(kind, items, i + 1, scraps, pos, m + Adds(kind, items[i], scraps, pos), e)
  }

  lemma {:induction false} AppendFromLevel(kind: Kind, exact: bool, texts: seq<seq<Token>>, base: nat, p: Pen, items: seq<Item>,
                                           i: nat, scraps: seq<Scrap>, pos: nat, m: int, e: int)
    requires i <= |items| && InRange(items, |scraps|, pos) && ListLevel(kind, exact, texts, base, scraps)
    requires Leads(kind, items, i, scraps, pos, m, e) && PenLevel(kind, exact, texts, base, p, m)
    ensures PenLevel(kind, exact, texts, base, AppendFrom(p, items, i, scraps, pos), e)
    decreases |items| - i
  {
    hide PenLevel, ScrapLevel, Extra, Delta;
    if i < |items| {
      var m' := m + Adds(kind, items[i], scraps, pos);
      LeadsLow(kind, items, i + 1, scraps, pos, m', e);
      ItemLevel(kind, exact, texts, base, p, items[i], scraps, pos, m);
      AppendFromLevel(kind, exact, texts, base, AppendItem(p, items[i], scraps, pos), items, i + 1, scraps, pos, m', e);
    }
  }

  lemma LeadsLow(kind: Kind, items: seq<Item>, i: nat, scraps: seq<Scrap>, pos: nat, m: int, e: int)
    requires i <= |items| && InRange(items, |scraps|, pos) && Leads(kind, items, i, scraps, pos, m, e)
    ensures m >= 0
  {
  }

  lemma ItemLevel(kind: Kind, exact: bool, texts: seq<seq<Token>>, base: nat, p: Pen, item: Item, scraps: seq<Scrap>, pos: nat, m: int)
    requires PenLevel(kind, exact, texts, base, p, m)
    requires item.Whole? ==> pos + item.i < |scraps| && ScrapLevel(kind, exact, texts, base, scraps[pos + item.i])
    requires m + Adds(kind, item, scraps, pos) >= 0
    ensures PenLevel(kind, exact, texts, base, AppendItem(p, item, scraps, pos), m + Adds(kind, item, scraps, pos))
  {
    hide ScrapLevel, Extra, Delta, SwitchTo;
    match item
    case Whole(i) => WholeLevel(kind, exact, texts, base, p, scraps[pos + i], m);
    case Big(mark) =>
      SwitchLevel(kind, exact, texts, base, p, NeedOf(mark), m);
      MarkLevel(kind, exact, texts, base, SwitchTo(p, NeedOf(mark)), mark, m);
    case Raw(mark) => MarkLevel(kind, exact, texts, base, p, mark, m);
    case Angle(mark) => MarkLevel(kind, exact, texts, base, p, mark, m);
  }

  /** What k scraps from at on leave open. */
  ghost function Extras(kind: Kind, scraps: seq<Scrap>, at: nat, k: nat): nat
    requires at + k <= |scraps|
    decreases k
  {
    if k == 0 then 0 else Extra(kind, scraps[at].cat) + Extras(kind, scraps, at + 1, k - 1)
  }

  /** Items that close what they open lead from any depth to what their scraps leave open. */
  lemma {:induction false} ClosesLeads(kind: Kind, items: seq<Item>, i: nat, scraps: seq<Scrap>, pos: nat, at: nat, k: nat, d: int,
                                       x: nat)
    requires i <= |items| && InRange(items, |scraps|, pos) && Covers(items, i, at, k) && pos + at + k <= |scraps|
    requires Closes(kind, items, i, d) && d >= 0
    ensures Leads(kind, items, i, scraps, pos, d + x, x + Extras(kind, scraps, pos + at, k))
    decreases |items| - i
  {
    hide Delta, Extra;
    if i < |items| {
      if items[i].Whole? {
        ClosesLeads(kind, items, i + 1, scraps, pos, at + 1, k - 1, d, x + Extra(kind, scraps[pos + at].cat));
      } else {
        ClosesLeads(kind, items, i + 1, scraps, pos, at, k, d + Delta(kind, items[i].m), x);
      }
    }
  }

  lemma {:induction false} ExtrasAre(kind: Kind, scraps: seq<Scrap>, pos: nat, at: nat, k: nat)
    requires pos + at + k <= |scraps| && at + k <= 4 && 1 <= k
    ensures Extras(kind, scraps, pos + at, k) == if kind.Indents? then 2 * Headings(WindowAt(scraps, pos), at, k) else 0
  {
    var w := WindowAt(scraps, pos);
    assert forall i :: at <= i < at + k ==> w.At(i) == scraps[pos + i].cat;
    var e := k - 1;
    assert Extras(kind, scraps, pos + at + k, 0) == 0;
    assert Extras(kind, scraps, pos + at + e, 1) == Extra(kind, w.At(at + e));
    if k > 1 { assert Extras(kind, scraps, pos + at + e - 1, 2) == Extra(kind, w.At(at + e - 1)) + Extra(kind, w.At(at + e)); }
    if k > 2 {
      assert Extras(kind, scraps, pos + at + e - 2, 3)
          == Extra(kind, w.At(at + e - 2)) + Extra(kind, w.At(at + e - 1)) + Extra(kind, w.At(at + e));
    }
  }

  lemma {:induction false} ExtrasSame(kind: Kind, a: seq<Scrap>, b: seq<Scrap>, at: nat, k: nat)
    requires Recategorised(a, b) && at + k <= |a|
    ensures Extras(kind, a, at, k) == Extras(kind, b, at, k)
    decreases k
  {
    if k > 0 {
      assert Similar(a[at], b[at]);
      ExtrasSame(kind, a, b, at + 1, k - 1);
    }
  }

  lemma IndentedLeads(kind: Kind, items: seq<Item>, scraps: seq<Scrap>, pos: nat, at: nat, k: nat)
    requires items == INDENTED || items == PAIR_INDENTED
    requires InRange(items, |scraps|, pos) && Covers(items, 0, at, k) && pos + at + k <= |scraps| && Extras(kind, scraps, pos + at, k) == 0
    ensures Leads(kind, items, 0, scraps, pos, 0, Extra(kind, FnDecl))
  {
    var d := if kind.Indents? then 1 else 0;
    var n := |items|;
    assert Leads(kind, items, n, scraps, pos, 2 * d, 2 * d);
    assert Leads(kind, items, n - 1, scraps, pos, d, 2 * d);
    assert Leads(kind, items, n - 2, scraps, pos, 0, 2 * d);
    if items == INDENTED {
      assert Covers(items, 1, at + 1, k - 1) && Covers(items, 2, at + 1, k - 1) && Covers(items, 3, at + 1, k - 1);
      assert Extras(kind, scraps, pos + at + 1, 0) == 0;
    } else {
      assert Covers(items, 1, at + 1, k - 1) && Covers(items, 2, at + 2, k - 2);
      assert Covers(items, 3, at + 2, k - 2) && Covers(items, 4, at + 2, k - 2);
      assert Extras(kind, scraps, pos + at + 2, 0) == 0 && Extras(kind, scraps, pos + at + 1, 1) == 0;
      assert Leads(kind, items, 1, scraps, pos, 0, 2 * d);
    }
  }

  /** A heading and a body: production 52 takes the two indents back. */
  lemma BodyLeads(kind: Kind, scraps: seq<Scrap>, pos: nat)
    requires InRange(FN_BODY, |scraps|, pos) && pos + 1 < |scraps| && scraps[pos].cat.FnDecl? && !scraps[pos + 1].cat.FnDecl?
    ensures Leads(kind, FN_BODY, 0, scraps, pos, 0, 0)
  {
    var d := if kind.Indents? then 1 else 0;
    assert Leads(kind, FN_BODY, 5, scraps, pos, 0, 0) && Leads(kind, FN_BODY, 4, scraps, pos, 0, 0);
    assert Leads(kind, FN_BODY, 3, scraps, pos, 0, 0);
    assert Leads(kind, FN_BODY, 2, scraps, pos, d, 0);
    assert Leads(kind, FN_BODY, 1, scraps, pos, 2 * d, 0);
  }

  lemma NestedCases(a: Action, w: Window)
    requires Sound(a, w) && a.Rewrite? && !IsBracket(a, w)
    ensures Covers(a.items, 0, a.at, a.k) && 1 <= a.k && a.at + a.k <= 4
    ensures
      || (Steady(a.items) && (a.cat.EndArg? || Headings(w, a.at, a.k) == Heading(a.cat)))
      || ((a.items == INDENTED || a.items == PAIR_INDENTED) && a.cat.FnDecl? && Headings(w, a.at, a.k) == 0)
      || (a.items == FN_BODY && a.at == 0 && a.k == 2 && w.c0.FnDecl? && !w.c1.FnDecl? && !a.cat.FnDecl? && !a.cat.EndArg?)
  {
    hide Covers, Steady, IsBracket, Rank, Inherits;
  }

  lemma BodyThere(before: seq<Scrap>, scraps: seq<Scrap>, pos: nat)
    requires Recategorised(before, scraps) && pos + 1 < |before|
    requires WindowAt(before, pos).c0.FnDecl? && !WindowAt(before, pos).c1.FnDecl?
    ensures scraps[pos].cat.FnDecl? && !scraps[pos + 1].cat.FnDecl?
  {
    assert Similar(before[pos], scraps[pos]) && Similar(before[pos + 1], scraps[pos + 1]);
  }

  /** What is open behind the items of a production is what its category says; only the end of a macro argument may have more. */
  lemma NestedLeads(kind: Kind, st: State, a: Action, scraps: seq<Scrap>) returns (e: int)
    requires Fires(st, a) && a.Rewrite? && !IsBracket(a, WindowAt(st.scraps, st.pos)) && Recategorised(st.scraps, scraps)
    requires InRange(a.items, |scraps|, st.pos)
    ensures Leads(kind, a.items, 0, scraps, st.pos, 0, e) && e >= Extra(kind, a.cat)
    ensures !a.cat.EndArg? ==> e == Extra(kind, a.cat)
  {
    hide Sound, IsBracket, Leads, Covers, Closes, InRange, WindowAt, Headings, Similar, Ready;
    ActionFits(st, a);
    var w := WindowAt(st.scraps, st.pos);
    NestedCases(a, w);
    ExtrasSame(kind, st.scraps, scraps, st.pos + a.at, a.k);
    ExtrasAre(kind, st.scraps, st.pos, a.at, a.k);
    if Steady(a.items) && (a.cat.EndArg? || Headings(w, a.at, a.k) == Heading(a.cat)) {
      e := Extras(kind, scraps, st.pos + a.at, a.k);
      ClosesLeads(kind, a.items, 0, scraps, st.pos, a.at, a.k, 0, 0);
    } else if a.items == FN_BODY {
      e := 0;
      BodyThere(st.scraps, scraps, st.pos);
      BodyLeads(kind, scraps, st.pos);
    } else {
      e := Extra(kind, FnDecl);
      IndentedLeads(kind, a.items, scraps, st.pos, a.at, a.k);
    }
  }

  lemma BracketLevel(kind: Kind, exact: bool, texts: seq<seq<Token>>, base: nat, items: seq<Item>, scraps: seq<Scrap>, pos: nat)
    requires |items| == 1 && items[0].Angle? && Delta(kind, items[0].m) == 0
    ensures PenLevel(kind, exact, texts, base, AppendFrom(BLANK, items, 0, scraps, pos), 0)
  {
    hide PenLevel;
    var p := AppendItem(BLANK, items[0], scraps, pos);
    assert AppendFrom(BLANK, items, 0, scraps, pos) == AppendFrom(p, items, 1, scraps, pos) == p;
    BlankLevel(kind, exact, texts, base);
    MarkLevel(kind, exact, texts, base, BLANK, items[0].m, 0);
    SameOut(kind, exact, texts, base, BLANK.(out := BLANK.out + [Sym(items[0].m)]), p);
  }

  lemma SameOut(kind: Kind, exact: bool, texts: seq<seq<Token>>, base: nat, p: Pen, q: Pen)
    requires p.out == q.out && PenLevel(kind, exact, texts, base, p, 0)
    ensures PenLevel(kind, exact, texts, base, q, 0)
  {
  }

  lemma BlankLevel(kind: Kind, exact: bool, texts: seq<seq<Token>>, base: nat)
    ensures PenLevel(kind, exact, texts, base, BLANK, 0)
  {
  }

  /** What a production builds. */
  lemma BuiltLevel(kind: Kind, exact: bool, st: State, a: Action, base: nat) returns (e: int)
    requires Sealed(st, base) && Fires(st, a) && a.Rewrite? && ListLevel(kind, exact, st.mem.Texts(), base, st.scraps)
    ensures PenLevel(kind, exact, st.mem.Texts(), base, Built(st, a).2, e) && e >= Extra(kind, a.cat)
    ensures !a.cat.EndArg? ==> e == Extra(kind, a.cat)
  {
    hide Sound, Apply, Built, AppendFrom, PenLevel, ListLevel, InRange, Recategorised, RefsLower, IsBracket, WindowAt;
    var m, scraps, pen := AppliedForm(st, a);
    var texts := st.mem.Texts();
    if IsBracket(a, WindowAt(st.scraps, st.pos)) {
      e := 0;
      BracketFacts(kind, a, WindowAt(st.scraps, st.pos));
      BracketLevel(kind, exact, texts, base, a.items, scraps, st.pos);
    } else {
      e := NestedLeads(kind, st, a, scraps);
      BlankLevel(kind, exact, texts, base);
      SimilarLevel(kind, exact, texts, base, st.scraps, scraps);
      AppendFromLevel(kind, exact, texts, base, BLANK, a.items, 0, scraps, st.pos, 0, e);
    }
  }

  lemma BracketFacts(kind: Kind, a: Action, w: Window)
    requires IsBracket(a, w)
    ensures |a.items| == 1 && a.items[0].Angle? && Delta(kind, a.items[0].m) == 0 && Extra(kind, a.cat) == 0 && !a.cat.EndArg?
  {
  }

  lemma SimilarLevel(kind: Kind, exact: bool, texts: seq<seq<Token>>, base: nat, a: seq<Scrap>, b: seq<Scrap>)
    requires Recategorised(a, b) && ListLevel(kind, exact, texts, base, a)
    ensures ListLevel(kind, exact, texts, base, b)
  {
    hide FlatText, Above, Depth;
    forall i | 0 <= i < |b| ensures ScrapLevel(kind, exact, texts, base, b[i]) {
      assert Similar(a[i], b[i]) && ScrapLevel(kind, exact, texts, base, a[i]);
    }
  }

  lemma FrameLevel(kind: Kind, exact: bool, texts: seq<seq<Token>>, texts': seq<seq<Token>>, base: nat, scraps: seq<Scrap>)
    requires Extends(texts, texts', base) && RefsLower(texts) && ListLevel(kind, exact, texts, base, scraps)
    requires forall i :: 0 <= i < |scraps| ==> scraps[i].trans < |texts|
    ensures ListLevel(kind, exact, texts', base, scraps)
  {
    hide Level, FlatText;
    forall i | 0 <= i < |scraps| ensures ScrapLevel(kind, exact, texts', base, scraps[i]) {
      FlatTextFrame(texts, texts', base, scraps[i].trans);
      assert ScrapLevel(kind, exact, texts, base, scraps[i]);
    }
  }

  /** No macro argument ends in the list; then no production makes an end of one. */
  ghost predicate NoEnds(scraps: seq<Scrap>) {
    forall i :: 0 <= i < |scraps| ==> !scraps[i].cat.EndArg?
  }

  lemma NoEndMade(st: State, a: Action)
    requires Fires(st, a) && a.Rewrite? && NoEnds(st.scraps)
    ensures !a.cat.EndArg?
  {
    hide Fitting, Steady, IsBracket, Headings;
  }

  lemma LevelNoEnds(kind: Kind, texts: seq<seq<Token>>, base: nat, scraps: seq<Scrap>)
    requires ListLevel(kind, true, texts, base, scraps)
    ensures NoEnds(scraps)
  {
    hide FlatText, Above, Depth;
    forall i | 0 <= i < |scraps| ensures !scraps[i].cat.EndArg? { assert ScrapLevel(kind, true, texts, base, scraps[i]); }
  }

  /** The new scrap and the others. */
  lemma RewriteLevel(kind: Kind, exact: bool, st: State, a: Action, base: nat)
    requires Sealed(st, base) && Fires(st, a) && a.Rewrite? && ListLevel(kind, exact, st.mem.Texts(), base, st.scraps)
    ensures Apply(st, a).mem.Frozen() && ListLevel(kind, exact, Apply(st, a).mem.Texts(), base, Apply(st, a).scraps)
  {
    hide Sound, Apply, Built, PenLevel, ScrapLevel, ListLevel, Flat, FlatText, Extends, RefsLower, InRange, Recategorised, Replace,
      NoEnds, RefsBelow, Similar, InOrder, Above, Depth, AppendFrom, WindowAt, Retagged;
    SealedOrder(st, base);
    ApplySealed(st, a, base);
    var e := BuiltLevel(kind, exact, st, a, base);
    if exact {
      LevelNoEnds(kind, st.mem.Texts(), base, st.scraps);
      NoEndMade(st, a);
    }
    var m, scraps, pen := AppliedForm(st, a);
    var texts, texts' := st.mem.Texts(), Apply(st, a).mem.Texts();
    var s := Scrap(a.cat, pen.init, pen.cur, m.Count());
    PenBecomesScrap([], texts, texts', base, pen, s);
    PenScrapLevel(kind, exact, texts, texts', base, pen, s, e);
    SimilarLevel(kind, exact, texts, base, st.scraps, scraps);
    FrameLevel(kind, exact, texts, texts', base, scraps);
    ReplaceLevel(kind, exact, texts', base, scraps, st.pos + a.at, a.k, s);
  }

  lemma SealedOrder(st: State, base: nat)
    requires Sealed(st, base)
    ensures RefsLower(st.mem.Texts()) && base <= |st.mem.Texts()| == st.mem.Count()
    ensures forall i :: 0 <= i < |st.scraps| ==> st.scraps[i].trans < st.mem.Count()
  {
  }

  lemma PenScrapLevel(kind: Kind, exact: bool, texts: seq<seq<Token>>, texts': seq<seq<Token>>, base: nat, p: Pen, s: Scrap, e: int)
    requires FlatText(texts', base, s.trans) == Flat(texts, base, p.out, |texts|) && PenLevel(kind, exact, texts, base, p, e)
    requires e >= Extra(kind, s.cat) && (exact ==> e == Extra(kind, s.cat) && !s.cat.EndArg?)
    ensures ScrapLevel(kind, exact, texts', base, s)
  {
    hide Above, Depth, Flat, FlatText;
  }

  lemma ReplaceLevel(kind: Kind, exact: bool, texts: seq<seq<Token>>, base: nat, scraps: seq<Scrap>, j: nat, k: nat, s: Scrap)
    requires j + k <= |scraps| && ListLevel(kind, exact, texts, base, scraps) && ScrapLevel(kind, exact, texts, base, s)
    ensures ListLevel(kind, exact, texts, base, Replace(scraps, j, k, s))
  {
    hide ScrapLevel;
    var after := Replace(scraps, j, k, s);
    forall i | 0 <= i < |after| ensures ScrapLevel(kind, exact, texts, base, after[i]) {
      assert after[i] == if i < j then scraps[i] else if i == j then s else scraps[i + k - 1];
    }
  }

  lemma RelabelLevel(kind: Kind, exact: bool, st: State, a: Action, base: nat)
    requires Sealed(st, base) && Fires(st, a) && !a.Rewrite? && ListLevel(kind, exact, st.mem.Texts(), base, st.scraps)
    ensures Apply(st, a).mem.Frozen() && ListLevel(kind, exact, Apply(st, a).mem.Texts(), base, Apply(st, a).scraps)
  {
    hide FlatText, Above, Depth, RefsLower, Rank, Built;
    ActionFits(st, a);
    var scraps := Apply(st, a).scraps;
    forall i | 0 <= i < |scraps| ensures ScrapLevel(kind, exact, st.mem.Texts(), base, scraps[i]) {
      assert ScrapLevel(kind, exact, st.mem.Texts(), base, st.scraps[i]);
    }
  }

  // ----- Runs and the final text -----

  /** Every run keeps the levels of all scraps. */
  lemma {:induction false} RunLevel(kind: Kind, exact: bool, st: State, run: seq<Action>, base: nat)
    requires Sealed(st, base) && IsRun(st, run) && ListLevel(kind, exact, st.mem.Texts(), base, st.scraps)
    ensures Sealed(After(st, run), base)
    ensures ListLevel(kind, exact, After(st, run).mem.Texts(), base, After(st, run).scraps)
    decreases |run|
  {
    hide Apply, ListLevel;
    if run != [] {
      ApplySealed(st, run[0], base);
      if run[0].Rewrite? { RewriteLevel(kind, exact, st, run[0], base); } else { RelabelLevel(kind, exact, st, run[0], base); }
      RunLevel(kind, exact, Apply(st, run[0]), run[1..], base);
    }
  }

  /** What the final scraps leave open, together. */
  lemma {:induction false} FinishLevel(kind: Kind, exact: bool, texts: seq<seq<Token>>, base: nat, scraps: seq<Scrap>, j: nat)
    requires j <= |scraps| && ListLevel(kind, exact, texts, base, scraps)
    ensures PenLevel(kind, exact, texts, base, Pen(No, No, Finish(scraps, j)), Extras(kind, scraps, 0, j))
  {
    hide PenLevel, ScrapLevel, Extra;
    if j == 0 {
      BlankLevel(kind, exact, texts, base);
      SameOut(kind, exact, texts, base, BLANK, Pen(No, No, Finish(scraps, 0)));
    } else {
      FinishLevel(kind, exact, texts, base, scraps, j - 1);
      FinishOneLevel(kind, exact, texts, base, Finish(scraps, j - 1), scraps[j - 1], j > 1, Extras(kind, scraps, 0, j - 1));
      ExtrasSnoc(kind, scraps, 0, j);
    }
  }

  lemma {:induction false} ExtrasSnoc(kind: Kind, scraps: seq<Scrap>, at: nat, k: nat)
    requires at + k <= |scraps| && k > 0
    ensures Extras(kind, scraps, at, k) == Extras(kind, scraps, at, k - 1) + Extra(kind, scraps[at + k - 1].cat)
    decreases k
  {
    hide Extra;
    if k > 1 { ExtrasSnoc(kind, scraps, at + 1, k - 1); }
  }

  lemma FinishOneLevel(kind: Kind, exact: bool, texts: seq<seq<Token>>, base: nat, a: seq<Token>, s: Scrap, spaced: bool, m: nat)
    requires PenLevel(kind, exact, texts, base, Pen(No, No, a), m) && ScrapLevel(kind, exact, texts, base, s)
    ensures var out := a + (if spaced then [Sym(Ch(' '))] else []) + (if s.left == Yes then [Sym(Ch('$'))] else [])
                + [Ref(s.trans)] + (if s.right == Yes then [Sym(Ch('$'))] else []);
      PenLevel(kind, exact, texts, base, Pen(No, No, out), m + Extra(kind, s.cat))
  {
    hide PenLevel, ScrapLevel;
    var b := a + (if spaced then [Sym(Ch(' '))] else []);
    var c := b + (if s.left == Yes then [Sym(Ch('$'))] else []);
    var d := c + [Ref(s.trans)];
    assert a + [] == a && b + [] == b && d + [] == d;
    MarkLevel(kind, exact, texts, base, Pen(No, No, a), Ch(' '), m);
    MarkLevel(kind, exact, texts, base, Pen(No, No, b), Ch('$'), m);
    WholeLevel(kind, exact, texts, base, Pen(No, No, c), s.(left := Maybe), m) by {
      SameLevel(kind, exact, texts, base, s, s.(left := Maybe));
    }
    MarkLevel(kind, exact, texts, base, Pen(No, No, d), Ch('$'), m + Extra(kind, s.cat));
  }

  lemma SameLevel(kind: Kind, exact: bool, texts: seq<seq<Token>>, base: nat, s: Scrap, s': Scrap)
    requires ScrapLevel(kind, exact, texts, base, s) && s'.cat == s.cat && s'.trans == s.trans
    ensures ScrapLevel(kind, exact, texts, base, s')
  {
  }

  /** The scraps as typed are leaves, none of which is the heading of a function. */
  lemma FreshLevel(kind: Kind, exact: bool, tag: seq<Math>, st: State)
    requires Fresh(tag, st) && (forall i :: 0 <= i < |st.scraps| ==> !st.scraps[i].cat.FnDecl?) && (exact ==> NoEnds(st.scraps))
    ensures Sealed(st, st.mem.Count()) && ListLevel(kind, exact, st.mem.Texts(), st.mem.Count(), st.scraps)
  {
    FreshMoves(tag, st);
    forall i | 0 <= i < |st.scraps| ensures ScrapLevel(kind, exact, st.mem.Texts(), st.mem.Count(), st.scraps[i]) {
      var t := st.scraps[i].trans;
      assert FlatText(st.mem.Texts(), st.mem.Count(), t) == [Leaf(t)];
      DepthOne(kind, Leaf(t), 0);
    }
  }

  /** How often a mark is in a text. */
  ghost function Count(m: Mark, atoms: seq<Atom>): nat {
    if atoms == [] then 0 else (if atoms[0] == Mk(m) then 1 else 0) + Count(m, atoms[1..])
  }

  /** Outdents and indents, closing and opening braces; math_rel opens a brace, too. */
  lemma {:induction false} DepthCounts(kind: Kind, atoms: seq<Atom>)
    ensures Depth(Indents, atoms) == Count(Indent, atoms) - Count(Outdent, atoms)
    ensures Depth(Braces, atoms) == Count(Ch('{'), atoms) + Count(MathRel, atoms) - Count(Ch('}'), atoms)
  {
    if atoms != [] { DepthCounts(kind, atoms[1..]); }
  }

  /** How many headings of functions are left. */
  ghost function HeadingsLeft(scraps: seq<Scrap>): nat {
    if scraps == [] then 0 else Heading(scraps[0].cat) + HeadingsLeft(scraps[1..])
  }

  lemma {:induction false} ExtrasLeft(kind: Kind, scraps: seq<Scrap>, at: nat)
    requires at <= |scraps|
    ensures Extras(kind, scraps, at, |scraps| - at) == if kind.Indents? then 2 * HeadingsLeft(scraps[at..]) else 0
    decreases |scraps| - at
  {
    if at < |scraps| {
      ExtrasLeft(kind, scraps, at + 1);
      assert scraps[at..][1..] == scraps[at + 1..];
    }
  }

  /** The text made of the final scraps; base is the first text of the translation. */
  ghost function FinalText(end: State, base: nat): seq<Atom>
    requires end.mem.Frozen()
  {
    var out := Finish(end.scraps, |end.scraps|);
    AppendTexts(end.mem, out);
    FlatText(end.mem.Append(out).Texts(), base, end.mem.Count())
  }

  lemma FinalLevel(kind: Kind, exact: bool, end: State, base: nat)
    requires Sealed(end, base) && ListLevel(kind, exact, end.mem.Texts(), base, end.scraps)
    ensures Above(kind, FinalText(end, base), 0)
    ensures exact ==> Depth(kind, FinalText(end, base)) == if kind.Indents? then 2 * HeadingsLeft(end.scraps) else 0
  {
    hide Flat, FlatText, ListLevel, Above, Depth, Extra;
    var out, texts := Finish(end.scraps, |end.scraps|), end.mem.Texts();
    FinishLevel(kind, exact, texts, base, end.scraps, |end.scraps|);
    FinishRefs(end.scraps, |end.scraps|, end.mem.Count());
    AppendTexts(end.mem, out);
    PenBecomesScrap([], texts, end.mem.Append(out).Texts(), base, Pen(No, No, out), Scrap(Insert, No, No, |texts|));
    ExtrasLeft(kind, end.scraps, 0);
    assert end.scraps[0..] == end.scraps;
  }

  /**
   In every run from typed scraps, none of which is a heading of a function: no part of the
   final text from its beginning on has more outdents than indents, or more closing braces than
   opening ones. If no macro argument ends in it, its braces are all closed, and so are its
   indents, but for two with each heading that found no body.
   */
  lemma PairedMarks(tag: seq<Math>, st: State, run: seq<Action>)
    requires Fresh(tag, st) && IsRun(st, run) && forall i :: 0 <= i < |st.scraps| ==> !st.scraps[i].cat.FnDecl?
    ensures After(st, run).mem.Frozen()
    ensures forall a, b :: FinalText(After(st, run), st.mem.Count()) == a + b ==>
      Count(Outdent, a) <= Count(Indent, a) && Count(Ch('}'), a) <= Count(Ch('{'), a) + Count(MathRel, a)
    ensures NoEnds(st.scraps) ==>
      var text := FinalText(After(st, run), st.mem.Count());
      && Count(Indent, text) == Count(Outdent, text) + 2 * HeadingsLeft(After(st, run).scraps)
      && Count(Ch('{'), text) + Count(MathRel, text) == Count(Ch('}'), text)
  {
    hide Apply, ListLevel, FinalText, Above, Depth, Count, NoEnds;
    var base, end := st.mem.Count(), After(st, run);
    FreshLevel(Indents, false, tag, st);
    FreshLevel(Braces, false, tag, st);
    RunLevel(Indents, false, st, run, base);
    RunLevel(Braces, false, st, run, base);
    FinalLevel(Indents, false, end, base);
    FinalLevel(Braces, false, end, base);
    var text := FinalText(end, base);
    forall a, b | text == a + b
      ensures Count(Outdent, a) <= Count(Indent, a) && Count(Ch('}'), a) <= Count(Ch('{'), a) + Count(MathRel, a)
    {
      AboveConcat(Indents, a, b, 0);
      AboveConcat(Braces, a, b, 0);
      AboveLow(Indents, a, 0);
      AboveLow(Braces, a, 0);
      DepthCounts(Indents, a);
    }
    if NoEnds(st.scraps) {
      FreshLevel(Indents, true, tag, st);
      FreshLevel(Braces, true, tag, st);
      RunLevel(Indents, true, st, run, base);
      RunLevel(Braces, true, st, run, base);
      FinalLevel(Indents, true, end, base);
      FinalLevel(Braces, true, end, base);
      DepthCounts(Indents, text);
    }
  }
}
