/**
 The one layout token that may stand inside math: production 52 appends two outdents in
 whatever mode its fn_decl scrap ends (cweb/cweave.c:2551-2560). How many do, in every run.
 */
module ScrapOutdent {
  import opened ScrapGrammar
  import opened ScrapText
  import opened ScrapRewrite
  import opened ScrapInvariants
  import opened ScrapContent
  import opened ScrapLayout

  // ----- A production -----

  lemma ListMostTwo(texts: seq<seq<Token>>, base: nat, s: Scrap, t: Scrap)
    ensures ListMost(Outdent, texts, base, [s]) == ScrapMost(Outdent, texts, base, s)
    ensures ListMost(Outdent, texts, base, [s, t]) == ScrapMost(Outdent, texts, base, s) + ScrapMost(Outdent, texts, base, t)
  {
    assert [s][1..] == [] && [s, t][1..] == [t];
    assert ListMost(Outdent, texts, base, [t]) == ScrapMost(Outdent, texts, base, t) by { assert [t][1..] == []; }
  }

  /** Two outdents in whatever mode the pen is, and then a token outside math. */
  lemma OutdentsThenForce(tag: seq<Math>, texts: seq<seq<Token>>, base: nat, p: Pen)
    requires PenMoves(tag, texts, base, p) && PenCalm(Outdent, texts, base, p)
    ensures var q := p.(out := p.out + [Sym(Outdent)] + [Sym(Outdent)]);
      PenMost(Outdent, texts, base, BigApp(q, Force)) == PenMost(Outdent, texts, base, p) + if p.cur == Yes then 2 else 0
  {
    hide Flat, Exec, InMath, Mode;
    var n := |texts|;
    var q := p.(out := p.out + [Sym(Outdent)] + [Sym(Outdent)]);
    var f, e := Flat(texts, base, p.out, n), if p.init == Maybe then No else p.init;
    var o, m := Mk(Outdent), e == Yes;
    PenMode(tag, texts, base, p);
    FlatSnoc(texts, base, p.out, Sym(Outdent), n);
    FlatSnoc(texts, base, p.out + [Sym(Outdent)], Sym(Outdent), n);
    InMathSnoc(Outdent, f, o, m);
    InMathSnoc(Outdent, f + [o], o, m);
    assert Flat(texts, base, q.out, n) == f + [o] + [o];
    var r := SwitchTo(q, No);
    FlatSnoc(texts, base, r.out, Sym(Force), n);
    InMathSnoc(Outdent, Flat(texts, base, r.out, n), Mk(Force), m);
    if q.cur == Yes {
      SwitchFlat(texts, base, q, No);
      var g := f + [o] + [o];
      InMathSnoc(Outdent, g, Mk(Ch('{')), m);
      InMathSnoc(Outdent, g + [Mk(Ch('{'))], Mk(Ch('}')), m);
      InMathSnoc(Outdent, g + [Mk(Ch('{'))] + [Mk(Ch('}'))], Mk(Ch('$')), m);
    }
  }

  lemma FnBodyUnfold(scraps: seq<Scrap>, pos: nat)
    requires pos + 1 < |scraps|
    ensures var p := BigApp1(BLANK, scraps[pos]);
      AppendFrom(BLANK, FN_BODY, 0, scraps, pos)
      == BigApp1(BigApp(p.(out := p.out + [Sym(Outdent)] + [Sym(Outdent)]), Force), scraps[pos + 1])
  {
    hide BigApp, BigApp1;
    var p := BigApp1(BLANK, scraps[pos]);
    var p2 := p.(out := p.out + [Sym(Outdent)]);
    var p3 := p2.(out := p2.out + [Sym(Outdent)]);
    var p4 := BigApp(p3, Force);
    calc {
      AppendFrom(BLANK, FN_BODY, 0, scraps, pos);
      AppendFrom(p, FN_BODY, 1, scraps, pos);
      AppendFrom(p2, FN_BODY, 2, scraps, pos);
      AppendFrom(p3, FN_BODY, 3, scraps, pos);
      AppendFrom(p4, FN_BODY, 4, scraps, pos);
      AppendFrom(BigApp1(p4, scraps[pos + 1]), FN_BODY, 5, scraps, pos);
      BigApp1(p4, scraps[pos + 1]);
    }
  }

  lemma FnBodyOuts(tag: seq<Math>, texts: seq<seq<Token>>, base: nat, scraps: seq<Scrap>, pos: nat)
    requires pos + 1 < |scraps| && ListMoves(tag, texts, base, scraps) && AllCalm(Outdent, texts, base, scraps)
    ensures var p := AppendFrom(BLANK, FN_BODY, 0, scraps, pos);
      && PenMost(Outdent, texts, base, p)
         == ScrapMost(Outdent, texts, base, scraps[pos]) + ScrapMost(Outdent, texts, base, scraps[pos + 1])
          + (if scraps[pos].right == Yes then 2 else 0)
      && PenCalm(Outdent, texts, base, p)
  {
    hide PenMoves, PenMost, PenCalm, ScrapMost, ScrapMoves, ScrapCalm;
    var s, t := scraps[pos], scraps[pos + 1];
    FnBodyUnfold(scraps, pos);
    BlankMost(tag, Outdent, texts, base);
    WholeMost(tag, Outdent, texts, base, BLANK, s);
    AppendItemMoves(tag, texts, base, BLANK, Whole(0), scraps, pos, Raw(Noop));
    var p1 := AppendItem(BLANK, Whole(0), scraps, pos);
    OutdentsThenForce(tag, texts, base, p1);
    AppendItemMoves(tag, texts, base, p1, Raw(Outdent), scraps, pos, Whole(0));
    var p2 := AppendItem(p1, Raw(Outdent), scraps, pos);
    AppendItemMoves(tag, texts, base, p2, Raw(Outdent), scraps, pos, Raw(Outdent));
    var p3 := AppendItem(p2, Raw(Outdent), scraps, pos);
    AppendItemMoves(tag, texts, base, p3, Big(Force), scraps, pos, Raw(Outdent));
    var p4 := AppendItem(p3, Big(Force), scraps, pos);
    NotMaybeCalm(tag, texts, base, p4);
    WholeMost(tag, Outdent, texts, base, p4, t);
    RightMaybe(tag, texts, base, s);
  }

  lemma NotMaybeCalm(tag: seq<Math>, texts: seq<seq<Token>>, base: nat, p: Pen)
    requires PenMoves(tag, texts, base, p) && p.cur != Maybe
    ensures PenCalm(Outdent, texts, base, p)
  {
  }

  lemma RightMaybe(tag: seq<Math>, texts: seq<seq<Token>>, base: nat, s: Scrap)
    requires ScrapMoves(tag, texts, base, s)
    ensures s.left == Maybe <==> s.right == Maybe
  {
  }

  /** The outdents that a production puts in math: the two of production 52, if the fn_decl ends there. */
  ghost function Gained(st: State, a: Action): nat
    requires Fires(st, a)
  {
    if a.Rewrite? && a.items == FN_BODY && st.scraps[st.pos].right == Yes then 2 else 0
  }

  /** The outdents in math that productions 84 and 85 throw away with the text of a bracket. */
  ghost function Dropped(st: State, a: Action, base: nat): nat
    requires Fires(st, a)
  {
    if IsBracket(a, WindowAt(st.scraps, st.pos)) then ScrapMost(Outdent, st.mem.Texts(), base, st.scraps[st.pos]) else 0
  }

  lemma {:induction false} NoRawOutdent(items: seq<Item>, i: nat, at: nat, k: nat)
    requires i <= |items| && Covers(items, i, at, k) && items != FN_BODY
    ensures Raws(Outdent, items, i) == 0
    decreases |items| - i
  {
    if i < |items| {
      var w := if items[i].Whole? then 1 else 0;
      NoRawOutdent(items, i + 1, at + w, k - w);
    }
  }

  lemma FnBodyCovers(at: nat, k: nat)
    requires Covers(FN_BODY, 0, at, k)
    ensures at == 0 && k == 2
  {
    assert Covers(FN_BODY, 1, at + 1, k - 1) && Covers(FN_BODY, 2, at + 1, k - 1) && Covers(FN_BODY, 3, at + 1, k - 1);
    assert Covers(FN_BODY, 4, at + 1, k - 1) && Covers(FN_BODY, 5, at + 2, k - 2);
  }

  lemma BuiltBracketOuts(st: State, a: Action, base: nat)
    requires Fires(st, a) && IsBracket(a, WindowAt(st.scraps, st.pos))
    ensures var texts := st.mem.Texts();
      && PenMost(Outdent, texts, base, Built(st, a).2) == 0 && PenCalm(Outdent, texts, base, Built(st, a).2)
      && ListMost(Outdent, texts, base, st.scraps[st.pos + a.at..st.pos + a.at + a.k]) == ScrapMost(Outdent, texts, base, st.scraps[st.pos])
  {
    hide Sound, Apply, Built, PenMost, ScrapMost, ListMost, AppendFrom, InRange, Recategorised;
    var m, scraps, pen := AppliedForm(st, a);
    var texts, s := st.mem.Texts(), st.scraps[st.pos];
    BracketMost(Outdent, texts, base, a.items, scraps, st.pos);
    assert st.scraps[st.pos..st.pos + 1] == [s];
    ListMostTwo(texts, base, s, s);
  }

  lemma BuiltCoveredOuts(tag: seq<Math>, st: State, a: Action, base: nat)
    requires Sealed(st, base) && Fires(st, a) && a.Rewrite? && Covers(a.items, 0, a.at, a.k)
    requires ListMoves(tag, st.mem.Texts(), base, st.scraps) && AllCalm(Outdent, st.mem.Texts(), base, st.scraps)
    ensures st.pos + a.at + a.k <= |st.scraps|
    ensures var texts := st.mem.Texts();
      && PenMost(Outdent, texts, base, Built(st, a).2)
         == ListMost(Outdent, texts, base, st.scraps[st.pos + a.at..st.pos + a.at + a.k]) + Gained(st, a)
      && PenCalm(Outdent, texts, base, Built(st, a).2)
  {
    hide Sound, Apply, Built, PenMost, PenCalm, ListMost, AppendFrom, AllCalm, ListMoves, Covers, InRange, RefsLower, Similar;
    if a.items == FN_BODY {
      BuiltBodyOuts(tag, st, a, base);
    } else {
      NoRawOutdent(a.items, 0, a.at, a.k);
      CoveredMost(tag, Outdent, st, a, base);
    }
  }

  lemma BuiltBodyOuts(tag: seq<Math>, st: State, a: Action, base: nat)
    requires Sealed(st, base) && Fires(st, a) && a.Rewrite? && Covers(a.items, 0, a.at, a.k) && a.items == FN_BODY
    requires ListMoves(tag, st.mem.Texts(), base, st.scraps) && AllCalm(Outdent, st.mem.Texts(), base, st.scraps)
    ensures st.pos + a.at + a.k <= |st.scraps|
    ensures var texts := st.mem.Texts();
      && PenMost(Outdent, texts, base, Built(st, a).2)
         == ListMost(Outdent, texts, base, st.scraps[st.pos + a.at..st.pos + a.at + a.k]) + Gained(st, a)
      && PenCalm(Outdent, texts, base, Built(st, a).2)
  {
    hide Sound, Apply, Built, PenMost, PenCalm, ListMost, AppendFrom, AllCalm, ListMoves, Covers, InRange, RefsLower, Similar;
    var m, scraps, pen := AppliedForm(st, a);
    var texts := st.mem.Texts();
    FnBodyCovers(a.at, a.k);
    SameListMoves(tag, Outdent, texts, base, st.scraps, scraps);
    SliceMost(Outdent, texts, texts, base, st.scraps, scraps, st.pos, st.pos + 2);
    FnBodyOuts(tag, texts, base, scraps, st.pos);
    assert scraps[st.pos..st.pos + 2] == [scraps[st.pos], scraps[st.pos + 1]];
    ListMostTwo(texts, base, scraps[st.pos], scraps[st.pos + 1]);
    SimilarRight(st.scraps, scraps, st.pos);
  }

  lemma SimilarRight(a: seq<Scrap>, b: seq<Scrap>, i: nat)
    requires Recategorised(a, b) && i < |a|
    ensures b[i].right == a[i].right
  {
    assert Similar(a[i], b[i]);
  }

  lemma BuiltOuts(tag: seq<Math>, st: State, a: Action, base: nat)
    requires Sealed(st, base) && Fires(st, a) && a.Rewrite?
    requires ListMoves(tag, st.mem.Texts(), base, st.scraps) && AllCalm(Outdent, st.mem.Texts(), base, st.scraps)
    ensures st.pos + a.at + a.k <= |st.scraps|
    ensures var texts := st.mem.Texts();
      && PenMost(Outdent, texts, base, Built(st, a).2) + Dropped(st, a, base)
         == ListMost(Outdent, texts, base, st.scraps[st.pos + a.at..st.pos + a.at + a.k]) + Gained(st, a)
      && PenCalm(Outdent, texts, base, Built(st, a).2)
  {
    hide Rank, Consumes, Built, PenMost, PenCalm, ScrapMost, ListMost, AllCalm, ListMoves, Covers;
    if IsBracket(a, WindowAt(st.scraps, st.pos)) {
      BuiltBracketOuts(st, a, base);
      assert a.items != FN_BODY;
    } else {
      hide IsBracket;
      BuiltCoveredOuts(tag, st, a, base);
    }
  }

  // ----- Runs -----

  lemma FrameCalm(texts: seq<seq<Token>>, texts': seq<seq<Token>>, base: nat, scraps: seq<Scrap>)
    requires Extends(texts, texts', base) && RefsLower(texts) && AllCalm(Outdent, texts, base, scraps)
    requires forall i :: 0 <= i < |scraps| ==> scraps[i].trans < |texts|
    ensures AllCalm(Outdent, texts', base, scraps)
  {
    hide Most, FlatText;
    forall i | 0 <= i < |scraps| ensures ScrapCalm(Outdent, texts', base, scraps[i]) {
      FlatTextFrame(texts, texts', base, scraps[i].trans);
      assert ScrapCalm(Outdent, texts, base, scraps[i]);
    }
  }

  lemma ApplyCalm(tag: seq<Math>, st: State, a: Action, base: nat)
    requires Sealed(st, base) && Fires(st, a) && AllMove(tag, st, base) && AllCalm(Outdent, st.mem.Texts(), base, st.scraps)
    ensures Apply(st, a).mem.Frozen() && AllCalm(Outdent, Apply(st, a).mem.Texts(), base, Apply(st, a).scraps)
  {
    hide Sound, Apply, Built, PenCalm, PenMost, Flat, FlatText, Most, ListMost, Moves, Dropped, Gained;
    ApplySealed(st, a, base);
    var st' := Apply(st, a);
    var texts, texts' := st.mem.Texts(), st'.mem.Texts();
    FrameCalm(texts, texts', base, st.scraps);
    if a.Rewrite? {
      BuiltOuts(tag, st, a, base);
      AppliedScraps(st, a);
      var j := st.pos + a.at;
      PenBecomesScrap(tag, texts, texts', base, Built(st, a).2, st'.scraps[j]);
      PenScrapMost(Outdent, texts, texts', base, Built(st, a).2, st'.scraps[j]);
      forall i | 0 <= i < |st'.scraps| ensures ScrapCalm(Outdent, texts', base, st'.scraps[i]) {
        if i < j {
          assert ScrapCalm(Outdent, texts', base, st.scraps[i]);
        } else if i > j {
          assert ScrapCalm(Outdent, texts', base, st.scraps[i + a.k - 1]);
        }
      }
    } else {
      RelabelledScraps(st, a);
      forall i | 0 <= i < |st'.scraps| ensures ScrapCalm(Outdent, texts', base, st'.scraps[i]) {
        assert ScrapCalm(Outdent, texts', base, st.scraps[i]);
      }
    }
  }

  /** One production: what it puts in math comes in, what it throws away goes. */
  lemma ApplyOuts(tag: seq<Math>, st: State, a: Action, base: nat)
    requires Sealed(st, base) && Fires(st, a) && AllMove(tag, st, base) && AllCalm(Outdent, st.mem.Texts(), base, st.scraps)
    ensures Apply(st, a).mem.Frozen()
    ensures StateMost(Outdent, Apply(st, a), base) + Dropped(st, a, base) == StateMost(Outdent, st, base) + Gained(st, a)
  {
    hide Sound, Built, Apply, PenMost, AllMove, ListMoves, AllCalm, Sealed, Gained, Dropped, WindowAt, ListMost;
    ApplySealed(st, a, base);
    if a.Rewrite? {
      MovesAll(tag, st, base);
      BuiltOuts(tag, st, a, base);
      RewriteExact(Outdent, st, a, base);
    } else {
      RelabelMost(Outdent, st, a, base);
      NothingChanges(st, a, base);
    }
  }

  lemma NothingChanges(st: State, a: Action, base: nat)
    requires Fires(st, a) && !a.Rewrite?
    ensures Dropped(st, a, base) == 0 && Gained(st, a) == 0
  {
  }

  ghost function AllGained(st: State, run: seq<Action>): nat
    requires IsRun(st, run)
    decreases |run|
  {
    if run == [] then 0 else Gained(st, run[0]) + AllGained(Apply(st, run[0]), run[1..])
  }

  ghost function AllDropped(st: State, run: seq<Action>, base: nat): nat
    requires IsRun(st, run)
    decreases |run|
  {
    if run == [] then 0 else Dropped(st, run[0], base) + AllDropped(Apply(st, run[0]), run[1..], base)
  }

  lemma {:induction false} RunOuts(tag: seq<Math>, st: State, run: seq<Action>, base: nat)
    requires Sealed(st, base) && AllMove(tag, st, base) && AllCalm(Outdent, st.mem.Texts(), base, st.scraps) && IsRun(st, run)
    ensures After(st, run).mem.Frozen() && AllCalm(Outdent, After(st, run).mem.Texts(), base, After(st, run).scraps)
    ensures StateMost(Outdent, After(st, run), base) + AllDropped(st, run, base) == StateMost(Outdent, st, base) + AllGained(st, run)
    decreases |run|
  {
    hide Apply, AllMove, AllCalm, StateMost, Gained, Dropped;
    if run != [] {
      ApplySealed(st, run[0], base);
      ApplyMoves(tag, st, run[0], base);
      ApplyCalm(tag, st, run[0], base);
      ApplyOuts(tag, st, run[0], base);
      RunOuts(tag, Apply(st, run[0]), run[1..], base);
    }
  }

  // ----- The final text -----

  /**
   Outdents in math: two for each time that production 52 meets a fn_decl scrap that ends in
   math, and no others, but for those that productions 84 and 85 throw away.
   */
  lemma OutdentsInMath(tag: seq<Math>, st: State, run: seq<Action>)
    requires Fresh(tag, st) && IsRun(st, run)
    ensures After(st, run).mem.Frozen()
    ensures FinalInMath(Outdent, After(st, run), st.mem.Count()) + AllDropped(st, run, st.mem.Count()) == AllGained(st, run)
  {
    hide Apply, StateMost, FinalInMath, AllDropped, AllGained, AllMove, AllCalm;
    var base := st.mem.Count();
    FreshMoves(tag, st);
    FreshMost(tag, Outdent, st);
    RunMoves(tag, st, run, base);
    RunOuts(tag, st, run, base);
    FinalMost(tag, Outdent, After(st, run), base);
  }

  // ----- Exactly when none is in math -----

  /** Production 52 never meets a fn_decl scrap that ends in math. */
  ghost predicate NeverInMath(st: State, run: seq<Action>)
    requires IsRun(st, run)
    decreases |run|
  {
    run == [] ||
    (&& (run[0].Rewrite? && run[0].items == FN_BODY ==> st.scraps[st.pos].right != Yes)
     && NeverInMath(Apply(st, run[0]), run[1..]))
  }

  lemma {:induction false} NothingGained(st: State, run: seq<Action>)
    requires IsRun(st, run)
    ensures NeverInMath(st, run) <==> AllGained(st, run) == 0
    decreases |run|
  {
    hide Apply;
    if run != [] { NothingGained(Apply(st, run[0]), run[1..]); }
  }

  lemma {:induction false} NothingDropped(st: State, run: seq<Action>, base: nat)
    requires Sealed(st, base) && Unmixed(st.scraps, base) && IsRun(st, run)
    ensures AllDropped(st, run, base) == 0
    decreases |run|
  {
    hide Sound, Apply, Unmixed;
    if run != [] {
      ApplySealed(st, run[0], base);
      ApplyUnmixed(st, run[0], base);
      NothingDropped(Apply(st, run[0]), run[1..], base);
      if IsBracket(run[0], WindowAt(st.scraps, st.pos)) {
        AngleIsLeaf(st, run[0], base);
        InMathOne(Outdent, Leaf(st.scraps[st.pos].trans), true);
        InMathOne(Outdent, Leaf(st.scraps[st.pos].trans), false);
      }
    }
  }

  /**
   All outdents stand outside math if production 52 never meets a fn_decl scrap that ends in
   math; and, where no insert was typed beside an angle bracket, only then.
   */
  lemma OutdentsOutside(tag: seq<Math>, st: State, run: seq<Action>)
    requires Fresh(tag, st) && IsRun(st, run)
    ensures After(st, run).mem.Frozen()
    ensures NeverInMath(st, run) ==> FinalInMath(Outdent, After(st, run), st.mem.Count()) == 0
    ensures BracketsApart(st.scraps) ==>
      (FinalInMath(Outdent, After(st, run), st.mem.Count()) == 0 <==> NeverInMath(st, run))
  {
    hide FinalInMath, NeverInMath, AllGained, AllDropped, BracketsApart;
    OutdentsInMath(tag, st, run);
    NothingGained(st, run);
    if BracketsApart(st.scraps) {
      FreshMoves(tag, st);
      NothingDropped(st, run, st.mem.Count());
    }
  }

  // ----- The run the table chooses -----

  /** The outdents that CWEAVE's own reduction puts in math. */
  ghost function TableGained(st: State, forceLines: bool): nat
    requires Ready(st)
    decreases |st.scraps|, RankSum(st.scraps), |st.scraps| - st.pos
  {
    if st.pos == |st.scraps| then 0 else
    WindowPadded(st);
    StepProgress(st, forceLines);
    Gained(st, Match(WindowAt(st.scraps, st.pos), forceLines)) + TableGained(Step(st, forceLines), forceLines)
  }

  lemma {:induction false} TableSum(st: State, run: seq<Action>, forceLines: bool)
    requires Ready(st) && IsRun(st, run) && FollowsTable(st, run, forceLines)
    requires After(st, run).pos == |After(st, run).scraps|
    ensures AllGained(st, run) == TableGained(st, forceLines)
    decreases |run|
  {
    hide Apply, Match, MatchCategory, Sound, Gained;
    if run != [] {
      WindowPadded(st);
      StepProgress(st, forceLines);
      TableSum(Apply(st, run[0]), run[1..], forceLines);
    }
  }

  /** So many of them are in the text that `translate` returns, if no insert was typed beside an angle bracket. */
  lemma TableOutdents(tag: seq<Math>, st: State, forceLines: bool)
    requires Fresh(tag, st) && BracketsApart(st.scraps)
    ensures Reduced(st, forceLines).mem.Frozen()
    ensures FinalInMath(Outdent, Reduced(st, forceLines), st.mem.Count()) == TableGained(st, forceLines)
  {
    hide FinalInMath, AllGained, AllDropped, TableGained, Reduced, BracketsApart, FollowsTable;
    var run := ReducedIsRun(st, forceLines);
    TableSum(st, run, forceLines);
    OutdentsInMath(tag, st, run);
    FreshMoves(tag, st);
    NothingDropped(st, run, st.mem.Count());
  }
}
