/**
 Conservation: what happens to the leaves of the scraps in a run of productions.
 */
module ScrapContent {
  import opened ScrapGrammar
  import opened ScrapText
  import opened ScrapRewrite
  import opened ScrapInvariants

  ghost function ContentOf(texts: seq<seq<Token>>, base: nat, s: Scrap): seq<Atom> {
    Content(FlatText(texts, base, s.trans))
  }

  /** The content of the scraps, left to right. */
  ghost function ListContent(texts: seq<seq<Token>>, base: nat, scraps: seq<Scrap>): seq<Atom> {
    if scraps == [] then []
    else ContentOf(texts, base, scraps[0]) + ListContent(texts, base, scraps[1..])
  }

  ghost function StateContent(st: State, base: nat): seq<Atom>
    requires st.mem.Frozen()
  {
    ListContent(st.mem.Texts(), base, st.scraps)
  }

  lemma {:induction false} ListContentConcat(texts: seq<seq<Token>>, base: nat, a: seq<Scrap>, b: seq<Scrap>)
    ensures ListContent(texts, base, a + b) == ListContent(texts, base, a) + ListContent(texts, base, b)
  {
    hide ContentOf;
    if a == [] {
      assert a + b == b;
    } else {
      ListContentConcat(texts, base, a[1..], b);
      assert (a + b)[1..] == a[1..] + b;
      assert ListContent(texts, base, a + b)
          == ContentOf(texts, base, a[0]) + (ListContent(texts, base, a[1..]) + ListContent(texts, base, b));
    }
  }

  lemma ListContentOne(texts: seq<seq<Token>>, base: nat, s: Scrap)
    ensures ListContent(texts, base, [s]) == ContentOf(texts, base, s)
  {
    assert [s][1..] == [];
  }

  /** Content is read off the texts alone, so it survives in a larger memory. */
  lemma {:induction false} ListContentFrame(texts: seq<seq<Token>>, texts': seq<seq<Token>>, base: nat,
                                            a: seq<Scrap>, b: seq<Scrap>)
    requires |a| == |b| && forall i :: 0 <= i < |a| ==> a[i].trans == b[i].trans < |texts|
    requires Extends(texts, texts', base) && RefsLower(texts)
    ensures ListContent(texts', base, b) == ListContent(texts, base, a)
  {
    if a != [] {
      FlatTextFrame(texts, texts', base, a[0].trans);
      ListContentFrame(texts, texts', base, a[1..], b[1..]);
    }
  }

  lemma {:induction false} AppendFromContent(texts: seq<seq<Token>>, base: nat, p: Pen, items: seq<Item>, i: nat,
                                             scraps: seq<Scrap>, pos: nat, at: nat, k: nat)
    requires i <= |items| && InRange(items, |scraps|, pos) && Covers(items, i, at, k) && pos + at + k <= |scraps|
    ensures Content(Flat(texts, base, AppendFrom(p, items, i, scraps, pos).out, |texts|))
         == Content(Flat(texts, base, p.out, |texts|)) + ListContent(texts, base, scraps[pos + at..pos + at + k])
    decreases |items| - i
  {
    hide AppendItem, Flat, Content;
    if i < |items| {
      AppendItemContent(texts, base, p, items[i], scraps, pos);
      var q := AppendItem(p, items[i], scraps, pos);
      if items[i].Whole? {
        AppendFromContent(texts, base, q, items, i + 1, scraps, pos, at + 1, k - 1);
        var run := scraps[pos + at..pos + at + k];
        assert run[0] == scraps[pos + at] && run[1..] == scraps[pos + at + 1..pos + at + k];
        assert Content(Flat(texts, base, AppendFrom(p, items, i, scraps, pos).out, |texts|))
            == Content(Flat(texts, base, p.out, |texts|))
             + (ContentOf(texts, base, run[0]) + ListContent(texts, base, run[1..]));
      } else {
        AppendFromContent(texts, base, q, items, i + 1, scraps, pos, at, k);
      }
    }
  }

  lemma BuiltBracketContent(st: State, a: Action, base: nat)
    requires Fires(st, a) && a.Rewrite? && IsBracket(a, WindowAt(st.scraps, st.pos))
    ensures Content(Flat(st.mem.Texts(), base, Built(st, a).2.out, st.mem.Count())) == [Mk(a.items[0].m)]
  {
    hide Sound, Apply, Built, Flat, Content, FlatText, AppendFrom, InRange, Recategorised;
    var m, scraps, pen := AppliedForm(st, a);
    BracketContent(st.mem.Texts(), base, pen, a.items, scraps, st.pos);
  }

  lemma BuiltCoveredContent(st: State, a: Action, base: nat)
    requires Sealed(st, base) && Fires(st, a) && a.Rewrite? && Covers(a.items, 0, a.at, a.k)
    ensures st.pos + a.at + a.k <= |st.scraps|
    ensures Content(Flat(st.mem.Texts(), base, Built(st, a).2.out, st.mem.Count()))
         == ListContent(st.mem.Texts(), base, st.scraps[st.pos + a.at..st.pos + a.at + a.k])
  {
    hide Sound, Apply, Built, Flat, Content, AppendFrom, ListContent, InRange, Covers, Recategorised, RefsLower;
    var m, scraps, pen := AppliedForm(st, a);
    var texts := st.mem.Texts();
    AppendFromContent(texts, base, BLANK, a.items, 0, scraps, st.pos, a.at, a.k);
    BlankContent(texts, base);
    SliceContent(texts, base, st.scraps, scraps, st.pos + a.at, a.k);
  }

  /** The content of the text a production builds. */
  lemma BuiltContent(st: State, a: Action, base: nat)
    requires Sealed(st, base) && Fires(st, a) && a.Rewrite?
    ensures st.pos + a.at + a.k <= |st.scraps|
    ensures Content(Flat(st.mem.Texts(), base, Built(st, a).2.out, st.mem.Count()))
         == if IsBracket(a, WindowAt(st.scraps, st.pos)) then [Mk(a.items[0].m)]
            else ListContent(st.mem.Texts(), base, st.scraps[st.pos + a.at..st.pos + a.at + a.k])
  {
    hide Rank, Consumes, Covers, Built, Flat, Content, ListContent;
    if IsBracket(a, WindowAt(st.scraps, st.pos)) {
      BuiltBracketContent(st, a, base);
    } else {
      hide IsBracket;
      BuiltCoveredContent(st, a, base);
    }
  }

  /** A production replaces the content of its run by the content of the text it builds. */
  lemma RewriteContent(st: State, a: Action, base: nat)
    requires Sealed(st, base) && Fires(st, a) && a.Rewrite?
    ensures Apply(st, a).mem.Frozen() && st.pos + a.at + a.k <= |st.scraps|
    ensures StateContent(Apply(st, a), base)
         == ListContent(st.mem.Texts(), base, st.scraps[..st.pos + a.at])
          + Content(Flat(st.mem.Texts(), base, Built(st, a).2.out, st.mem.Count()))
          + ListContent(st.mem.Texts(), base, st.scraps[st.pos + a.at + a.k..])
  {
    hide Sound, Apply, Built, Flat, Content, FlatText, AppendFrom, ListContent, InRange, Recategorised, Extends, Replace, RefsLower;
    ApplySealed(st, a, base);
    var m, scraps, pen := AppliedForm(st, a);
    var st' := Apply(st, a);
    var texts, texts' := st.mem.Texts(), st'.mem.Texts();
    var s := Scrap(a.cat, pen.init, pen.cur, m.Count());
    PenBecomesScrap([], texts, texts', base, pen, s);
    ReplaceContent(texts, texts', base, st.scraps, scraps, st.pos + a.at, a.k, s);
  }

  lemma RelabelContent(st: State, a: Action, base: nat)
    requires Sealed(st, base) && Fires(st, a) && !a.Rewrite?
    ensures Apply(st, a).mem.Frozen() && StateContent(Apply(st, a), base) == StateContent(st, base)
  {
    hide Sound, Apply, ListContent;
    ApplySealed(st, a, base);
    RelabelledScraps(st, a);
    ListContentFrame(st.mem.Texts(), Apply(st, a).mem.Texts(), base, st.scraps, Apply(st, a).scraps);
  }

  /** Only productions 84 and 85 change the content: the scrap at pp yields to one bracket. */
  lemma ApplyContent(st: State, a: Action, base: nat)
    requires Sealed(st, base) && Fires(st, a)
    ensures Apply(st, a).mem.Frozen()
    ensures !IsBracket(a, WindowAt(st.scraps, st.pos)) ==> StateContent(Apply(st, a), base) == StateContent(st, base)
    ensures IsBracket(a, WindowAt(st.scraps, st.pos)) ==>
      StateContent(Apply(st, a), base)
      == ListContent(st.mem.Texts(), base, st.scraps[..st.pos])
       + [Mk(a.items[0].m)]
       + ListContent(st.mem.Texts(), base, st.scraps[st.pos + 1..])
  {
    hide Sound, Built, Apply, Flat, Content, FlatText, ListContent, Sealed;
    if a.Rewrite? {
      RewriteContent(st, a, base);
      BuiltContent(st, a, base);
      SplitContent(st.mem.Texts(), base, st.scraps, st.pos + a.at, a.k);
    } else {
      RelabelContent(st, a, base);
    }
  }

  lemma SliceContent(texts: seq<seq<Token>>, base: nat, a: seq<Scrap>, b: seq<Scrap>, j: nat, k: nat)
    requires Recategorised(a, b) && j + k <= |a| && RefsLower(texts)
    requires forall i :: 0 <= i < |a| ==> a[i].trans < |texts|
    ensures ListContent(texts, base, b[j..j + k]) == ListContent(texts, base, a[j..j + k])
  {
    var x, y := a[j..j + k], b[j..j + k];
    forall i | 0 <= i < k ensures x[i].trans == y[i].trans < |texts| {
      assert Similar(a[j + i], b[j + i]);
    }
    ListContentFrame(texts, texts, base, x, y);
  }

  lemma BlankContent(texts: seq<seq<Token>>, base: nat)
    ensures Content(Flat(texts, base, BLANK.out, |texts|)) == []
  {
  }

  lemma BracketContent(texts: seq<seq<Token>>, base: nat, pen: Pen, items: seq<Item>, scraps: seq<Scrap>, pos: nat)
    requires |items| == 1 && items[0].Angle? && IsContent(Mk(items[0].m))
    requires pen == AppendFrom(BLANK, items, 0, scraps, pos)
    ensures Content(Flat(texts, base, pen.out, |texts|)) == [Mk(items[0].m)]
  {
    var tok := Sym(items[0].m);
    assert pen == AppendFrom(AppendItem(BLANK, items[0], scraps, pos), items, 1, scraps, pos);
    assert pen.out == [tok];
    assert [tok][1..] == [];
    assert Flat(texts, base, [tok], |texts|) == [Mk(items[0].m)] + Flat(texts, base, [], |texts|);
    assert [Mk(items[0].m)][1..] == [];
  }

  lemma SplitContent(texts: seq<seq<Token>>, base: nat, scraps: seq<Scrap>, j: nat, k: nat)
    requires j + k <= |scraps|
    ensures ListContent(texts, base, scraps)
         == ListContent(texts, base, scraps[..j]) + ListContent(texts, base, scraps[j..j + k])
          + ListContent(texts, base, scraps[j + k..])
  {
    assert scraps == scraps[..j] + scraps[j..j + k] + scraps[j + k..];
    ListContentConcat(texts, base, scraps[..j] + scraps[j..j + k], scraps[j + k..]);
    ListContentConcat(texts, base, scraps[..j], scraps[j..j + k]);
  }

  lemma ReplaceContent(texts: seq<seq<Token>>, texts': seq<seq<Token>>, base: nat, old_: seq<Scrap>, scraps: seq<Scrap>,
                       j: nat, k: nat, s: Scrap)
    requires Recategorised(old_, scraps) && j + k <= |scraps| && Extends(texts, texts', base) && RefsLower(texts)
    requires forall i :: 0 <= i < |old_| ==> old_[i].trans < |texts|
    ensures ListContent(texts', base, Replace(scraps, j, k, s))
         == ListContent(texts, base, old_[..j]) + ContentOf(texts', base, s) + ListContent(texts, base, old_[j + k..])
  {
    ListContentConcat(texts', base, scraps[..j] + [s], scraps[j + k..]);
    ListContentConcat(texts', base, scraps[..j], [s]);
    ListContentOne(texts', base, s);
    ListContentFrame(texts, texts', base, old_[..j], scraps[..j]);
    ListContentFrame(texts, texts', base, old_[j + k..], scraps[j + k..]);
  }

  // ----- Whole runs -----

  /**
   Every scrap has content; and an angle scrap with a single piece of content is still
   the bracket that was typed. `orig` gives the category each leaf had at the start.
   */
  ghost predicate TracedScrap(orig: seq<Cat>, texts: seq<seq<Token>>, base: nat, s: Scrap) {
    var c := ContentOf(texts, base, s);
    && c != []
    && ((s.cat == Prelangle || s.cat == Prerangle) && |c| == 1 ==>
          c[0].Leaf? && c[0].t < |orig| && orig[c[0].t] == s.cat)
  }

  ghost predicate Traced(orig: seq<Cat>, st: State, base: nat)
    requires st.mem.Frozen()
  {
    forall i :: 0 <= i < |st.scraps| ==> TracedScrap(orig, st.mem.Texts(), base, st.scraps[i])
  }

  lemma {:induction false} ListContentSize(texts: seq<seq<Token>>, base: nat, scraps: seq<Scrap>)
    requires forall i :: 0 <= i < |scraps| ==> ContentOf(texts, base, scraps[i]) != []
    ensures |ListContent(texts, base, scraps)| >= |scraps|
  {
    hide ContentOf;
    if scraps != [] { ListContentSize(texts, base, scraps[1..]); }
  }

  lemma BuiltTraced(orig: seq<Cat>, st: State, a: Action, base: nat)
    requires Sealed(st, base) && Fires(st, a) && a.Rewrite? && Traced(orig, st, base)
    ensures var c := Content(Flat(st.mem.Texts(), base, Built(st, a).2.out, st.mem.Count()));
      c != [] && (a.cat == Prelangle || a.cat == Prerangle ==> |c| > 1)
  {
    hide Rank, Built, Flat, ContentOf, Content, ListContent, FlatText;
    BuiltContent(st, a, base);
    var texts := st.mem.Texts();
    var run := st.scraps[st.pos + a.at..st.pos + a.at + a.k];
    forall i | 0 <= i < |run| ensures ContentOf(texts, base, run[i]) != [] {
      assert TracedScrap(orig, texts, base, st.scraps[st.pos + a.at + i]);
    }
    ListContentSize(texts, base, run);
  }

  lemma FrameTraced(orig: seq<Cat>, texts: seq<seq<Token>>, texts': seq<seq<Token>>, base: nat, s: Scrap, s': Scrap)
    requires Extends(texts, texts', base) && RefsLower(texts) && s.trans < |texts|
    requires s'.trans == s.trans && (s' == s || !IsOriginal(s'.cat)) && TracedScrap(orig, texts, base, s)
    ensures TracedScrap(orig, texts', base, s')
  {
    hide Content, FlatText;
    FlatTextFrame(texts, texts', base, s.trans);
  }

  /** The scraps beside a new one. */
  lemma OthersTraced(orig: seq<Cat>, texts: seq<seq<Token>>, texts': seq<seq<Token>>, base: nat,
                     before: seq<Scrap>, after: seq<Scrap>, j: nat, k: nat)
    requires Extends(texts, texts', base) && RefsLower(texts)
    requires 1 <= k && j + k <= |before| && |after| == |before| - k + 1
    requires forall i :: 0 <= i < |before| ==> before[i].trans < |texts| && TracedScrap(orig, texts, base, before[i])
    requires forall i :: 0 <= i < j ==> Similar(before[i], after[i])
    requires forall i :: j < i < |after| ==> Similar(before[i + k - 1], after[i])
    requires TracedScrap(orig, texts', base, after[j])
    ensures forall i :: 0 <= i < |after| ==> TracedScrap(orig, texts', base, after[i])
  {
    hide TracedScrap, Extends, RefsLower;
    forall i | 0 <= i < |after| ensures TracedScrap(orig, texts', base, after[i]) {
      if i != j {
        var l := if i < j then i else i + k - 1;
        assert Similar(before[l], after[i]);
        FrameTraced(orig, texts, texts', base, before[l], after[i]);
      }
    }
  }

  lemma RelabelTraced(orig: seq<Cat>, st: State, a: Action, base: nat)
    requires Sealed(st, base) && Fires(st, a) && Traced(orig, st, base) && !a.Rewrite?
    ensures Apply(st, a).mem.Frozen() && Traced(orig, Apply(st, a), base)
  {
    hide Sound, Apply, TracedScrap, Extends, RefsLower;
    ApplySealed(st, a, base);
    RelabelledScraps(st, a);
    var st' := Apply(st, a);
    forall i | 0 <= i < |st'.scraps| ensures TracedScrap(orig, st'.mem.Texts(), base, st'.scraps[i]) {
      FrameTraced(orig, st.mem.Texts(), st'.mem.Texts(), base, st.scraps[i], st'.scraps[i]);
    }
  }

  lemma ApplyTraced(orig: seq<Cat>, st: State, a: Action, base: nat)
    requires Sealed(st, base) && Fires(st, a) && Traced(orig, st, base)
    ensures Apply(st, a).mem.Frozen() && Traced(orig, Apply(st, a), base)
  {
    hide Sound, Built, Apply, TracedScrap, Extends, RefsLower, RefsBelow, Similar, WindowAt, Plain;
    ApplySealed(st, a, base);
    if a.Rewrite? {
      AppliedScraps(st, a);
      NewTraced(orig, st, a, base);
      OthersTraced(orig, st.mem.Texts(), Apply(st, a).mem.Texts(), base, st.scraps, Apply(st, a).scraps, st.pos + a.at, a.k);
    } else {
      RelabelTraced(orig, st, a, base);
    }
  }

  lemma NewTraced(orig: seq<Cat>, st: State, a: Action, base: nat)
    requires Sealed(st, base) && Fires(st, a) && a.Rewrite? && Traced(orig, st, base)
    ensures Apply(st, a).mem.Frozen() && st.pos + a.at < |Apply(st, a).scraps|
    ensures TracedScrap(orig, Apply(st, a).mem.Texts(), base, Apply(st, a).scraps[st.pos + a.at])
  {
    hide Sound, Built, Apply, Flat, Content, FlatText, Similar;
    ApplySealed(st, a, base);
    BuiltTraced(orig, st, a, base);
    AppliedScraps(st, a);
    PenBecomesScrap([], st.mem.Texts(), Apply(st, a).mem.Texts(), base, Built(st, a).2, Apply(st, a).scraps[st.pos + a.at]);
  }

  /** Productions 84 and 85 only ever consume a scrap with a single piece of content. */
  ghost predicate LossFree(st: State, run: seq<Action>, base: nat)
    requires IsRun(st, run)
    decreases |run|
  {
    run == [] ||
    (&& (IsBracket(run[0], WindowAt(st.scraps, st.pos)) ==>
           |ContentOf(st.mem.Texts(), base, st.scraps[st.pos])| == 1)
     && LossFree(Apply(st, run[0]), run[1..], base))
  }

  /** Same leaves in the same order, but a typed angle bracket may have become a byte. */
  ghost predicate Bracketed(orig: seq<Cat>, before: seq<Atom>, after: seq<Atom>) {
    && |after| == |before|
    && forall i :: 0 <= i < |before| ==>
         || after[i] == before[i]
         || (&& before[i].Leaf? && before[i].t < |orig|
             && ((orig[before[i].t] == Prelangle && after[i] == Mk(Ch('<')))
                 || (orig[before[i].t] == Prerangle && after[i] == Mk(Ch('>')))))
  }

  /** One step: never more content, less exactly when a bracket swallows company. */
  lemma StepConserves(orig: seq<Cat>, st: State, a: Action, base: nat)
    requires Sealed(st, base) && Fires(st, a) && Traced(orig, st, base)
    ensures Apply(st, a).mem.Frozen()
    ensures |StateContent(Apply(st, a), base)| <= |StateContent(st, base)|
    ensures |StateContent(Apply(st, a), base)| == |StateContent(st, base)|
      <==> (IsBracket(a, WindowAt(st.scraps, st.pos)) ==> |ContentOf(st.mem.Texts(), base, st.scraps[st.pos])| == 1)
    ensures |StateContent(Apply(st, a), base)| == |StateContent(st, base)|
      ==> Bracketed(orig, StateContent(st, base), StateContent(Apply(st, a), base))
  {
    hide Sound, Apply, ContentOf, ListContent, InOrder, Bracketed;
    ApplyContent(st, a, base);
    SameBracketed(orig, StateContent(st, base));
    if IsBracket(a, WindowAt(st.scraps, st.pos)) {
      var texts := st.mem.Texts();
      var s := st.scraps[st.pos];
      assert TracedScrap(orig, texts, base, s);
      SplitContent(texts, base, st.scraps, st.pos, 1);
      assert st.scraps[st.pos..st.pos + 1] == [s];
      ListContentOne(texts, base, s);
      var c := ContentOf(texts, base, s);
      if |c| == 1 {
        OneBracketed(orig, ListContent(texts, base, st.scraps[..st.pos]), c, [Mk(a.items[0].m)],
                     ListContent(texts, base, st.scraps[st.pos + 1..]));
      }
    }
  }

  lemma SameBracketed(orig: seq<Cat>, c: seq<Atom>)
    ensures Bracketed(orig, c, c)
  {
  }

  lemma OneBracketed(orig: seq<Cat>, x: seq<Atom>, a: seq<Atom>, b: seq<Atom>, y: seq<Atom>)
    requires |a| == |b| == 1 && Bracketed(orig, a, b)
    ensures Bracketed(orig, x + a + y, x + b + y)
  {
    var before, after, n := x + a + y, x + b + y, |x|;
    assert before[n] == a[0] && after[n] == b[0];
    assert forall i :: 0 <= i < |before| && i != n ==> before[i] == after[i];
  }

  /**
   Conservation. A run never adds content. It keeps the amount of content exactly when
   productions 84 and 85 never consume a bracket that something was squashed into; and
   then the leaves come out in their original order, each unchanged or, if it was typed
   as an angle bracket, replaced by that bracket.
   */
  lemma {:induction false} Conservation(orig: seq<Cat>, st: State, run: seq<Action>, base: nat)
    requires Sealed(st, base) && Traced(orig, st, base) && IsRun(st, run)
    ensures Sealed(After(st, run), base)
    ensures |StateContent(After(st, run), base)| <= |StateContent(st, base)|
    ensures |StateContent(After(st, run), base)| == |StateContent(st, base)| <==> LossFree(st, run, base)
    ensures LossFree(st, run, base) ==> Bracketed(orig, StateContent(st, base), StateContent(After(st, run), base))
    decreases |run|
  {
    hide Sound, Apply, ListContent, ContentOf;
    if run != [] {
      ApplySealed(st, run[0], base);
      ApplyTraced(orig, st, run[0], base);
      StepConserves(orig, st, run[0], base);
      Conservation(orig, Apply(st, run[0]), run[1..], base);
    }
  }

  // ----- A condition on the input -----

  /** Neighbours of which neither is an angle bracket that an insert beside it can be squashed into. */
  predicate Apart(a: Cat, b: Cat) {
    !(IsAngle(a) && OpensInsert(b)) && !(ClosesInsert(a) && IsAngle(b))
  }

  ghost predicate ApartAt(scraps: seq<Scrap>, i: nat)
    requires i + 1 < |scraps|
  {
    Apart(scraps[i].cat, scraps[i + 1].cat)
  }

  /** No angle bracket has an insert or a preprocessor line right after or right before it. */
  ghost predicate BracketsApart(scraps: seq<Scrap>) {
    forall i :: 0 <= i < |scraps| - 1 ==> ApartAt(scraps, i)
  }

  /** So that the angle brackets are still the leaves that were typed. */
  ghost predicate Unmixed(scraps: seq<Scrap>, base: nat) {
    BracketsApart(scraps) && forall i :: 0 <= i < |scraps| && IsAngle(scraps[i].cat) ==> scraps[i].trans < base
  }

  /** Re-tagged and relabelled scraps are no closer to one another. */
  lemma RelabelledApart(a: seq<Scrap>, b: seq<Scrap>, base: nat)
    requires Unmixed(a, base) && |a| == |b|
    requires forall i :: 0 <= i < |a| ==> b[i].trans == a[i].trans && (b[i].cat == a[i].cat || !IsOriginal(b[i].cat))
    ensures Unmixed(b, base)
  {
    forall i | 0 <= i < |b| - 1 ensures ApartAt(b, i) {
      assert ApartAt(a, i);
    }
  }

  /** The scrap that replaces a run stands beside its neighbours as the ends of the run did. */
  lemma ReplacedApart(scraps: seq<Scrap>, j: nat, k: nat, s: Scrap, base: nat)
    requires Unmixed(scraps, base) && 1 <= k && j + k <= |scraps|
    requires OpensInsert(s.cat) ==> OpensInsert(scraps[j].cat)
    requires ClosesInsert(s.cat) ==> ClosesInsert(scraps[j + k - 1].cat)
    requires !IsAngle(s.cat)
    ensures Unmixed(Replace(scraps, j, k, s), base)
  {
    var after := Replace(scraps, j, k, s);
    assert forall i :: 0 <= i < |after| ==> after[i] == if i < j then scraps[i] else if i == j then s else scraps[i + k - 1];
    forall i | 0 <= i < |after| - 1 ensures ApartAt(after, i) {
      assert ApartAt(scraps, if i < j then i else i + k - 1);
    }
  }

  /** Where brackets are apart from inserts, nothing is squashed into a bracket. */
  lemma NoAngleMade(st: State, a: Action)
    requires Fires(st, a) && a.Rewrite? && BracketsApart(st.scraps)
    ensures 1 <= a.k && st.pos + a.at + a.k <= |st.scraps| && !IsAngle(a.cat)
    ensures OpensInsert(a.cat) ==> OpensInsert(st.scraps[st.pos + a.at].cat)
    ensures ClosesInsert(a.cat) ==> ClosesInsert(st.scraps[st.pos + a.at + a.k - 1].cat)
  {
    hide Sound, WindowAt, InRange, BracketsApart, Ready;
    ActionFits(st, a);
    var w, j := WindowAt(st.scraps, st.pos), st.pos + a.at;
    SoundInherits(a, w);
    WindowShows(st.scraps, st.pos, a.at);
    WindowShows(st.scraps, st.pos, a.at + a.k - 1);
    if a.k == 2 { ApartThere(st.scraps, j); }
  }

  lemma SoundInherits(a: Action, w: Window)
    requires Sound(a, w) && a.Rewrite?
    ensures 1 <= a.k && a.at + a.k <= 4 && Inherits(w, a.at, a.k, a.cat)
  {
    hide Covers, Rank, IsBracket, IsAngle, OpensInsert, ClosesInsert;
  }

  lemma WindowShows(scraps: seq<Scrap>, pos: nat, i: nat)
    requires i < 4 && pos + i < |scraps|
    ensures WindowAt(scraps, pos).At(i) == scraps[pos + i].cat
  {
  }

  lemma ApartThere(scraps: seq<Scrap>, i: nat)
    requires BracketsApart(scraps) && i + 1 < |scraps|
    ensures ApartAt(scraps, i)
  {
  }

  /** Every production keeps brackets and inserts apart. */
  lemma ApplyUnmixed(st: State, a: Action, base: nat)
    requires Fires(st, a) && Unmixed(st.scraps, base)
    ensures Unmixed(Apply(st, a).scraps, base)
  {
    hide Sound, Apply, Unmixed, Ready, IsAngle, OpensInsert, ClosesInsert;
    if a.Rewrite? {
      RewriteUnmixed(st, a, base);
    } else {
      RelabelledScraps(st, a);
      RelabelledApart(st.scraps, Apply(st, a).scraps, base);
    }
  }

  lemma RewriteUnmixed(st: State, a: Action, base: nat)
    requires Fires(st, a) && Unmixed(st.scraps, base) && a.Rewrite?
    ensures Unmixed(Apply(st, a).scraps, base)
  {
    hide Sound, Apply, Unmixed, Ready, IsAngle, OpensInsert, ClosesInsert, Built, InRange, Retagged, Replace, AppendFrom,
      Recategorised, BracketsApart, WindowAt;
    MixedParts(st.scraps, base);
    NoAngleMade(st, a);
    var m, scraps, pen := AppliedForm(st, a);
    var j, s := st.pos + a.at, Scrap(a.cat, pen.init, pen.cur, m.Count());
    SimilarUnmixed(st.scraps, scraps, base);
    SimilarEnds(st.scraps, scraps, j, j + a.k - 1);
    ReplacedApart(scraps, j, a.k, s, base);
  }

  lemma MixedParts(scraps: seq<Scrap>, base: nat)
    requires Unmixed(scraps, base)
    ensures BracketsApart(scraps)
  {
  }

  lemma SimilarUnmixed(a: seq<Scrap>, b: seq<Scrap>, base: nat)
    requires Recategorised(a, b) && Unmixed(a, base)
    ensures Unmixed(b, base)
  {
    forall i | 0 <= i < |a| ensures b[i].trans == a[i].trans && (b[i].cat == a[i].cat || !IsOriginal(b[i].cat)) {
      assert Similar(a[i], b[i]);
    }
    RelabelledApart(a, b, base);
  }

  lemma SimilarEnds(a: seq<Scrap>, b: seq<Scrap>, i: nat, j: nat)
    requires Recategorised(a, b) && i < |a| && j < |a|
    ensures OpensInsert(a[i].cat) ==> OpensInsert(b[i].cat)
    ensures ClosesInsert(a[j].cat) ==> ClosesInsert(b[j].cat)
  {
    assert Similar(a[i], b[i]) && Similar(a[j], b[j]);
  }

  /** An angle bracket that is still a leaf is a single piece of content. */
  lemma AngleIsLeaf(st: State, a: Action, base: nat)
    requires Fires(st, a) && Unmixed(st.scraps, base) && IsBracket(a, WindowAt(st.scraps, st.pos))
    ensures FlatText(st.mem.Texts(), base, st.scraps[st.pos].trans) == [Leaf(st.scraps[st.pos].trans)]
    ensures ContentOf(st.mem.Texts(), base, st.scraps[st.pos]) == [Leaf(st.scraps[st.pos].trans)]
  {
    var t := st.scraps[st.pos].trans;
    assert FlatText(st.mem.Texts(), base, t) == [Leaf(t)];
    assert [Leaf(t)][1..] == [];
    assert Content([Leaf(t)]) == [Leaf(t)] + Content([]);
  }

  /** If no insert or preprocessor line was typed beside an angle bracket, no run loses anything. */
  lemma {:induction false} BracketsApartLossFree(st: State, run: seq<Action>, base: nat)
    requires Sealed(st, base) && Unmixed(st.scraps, base) && IsRun(st, run)
    ensures LossFree(st, run, base)
    decreases |run|
  {
    hide Sound, Apply, Unmixed, ContentOf;
    if run != [] {
      ApplySealed(st, run[0], base);
      ApplyUnmixed(st, run[0], base);
      BracketsApartLossFree(Apply(st, run[0]), run[1..], base);
      if IsBracket(run[0], WindowAt(st.scraps, st.pos)) {
        AngleIsLeaf(st, run[0], base);
      }
    }
  }

  // ----- From the fresh scraps to the final text -----

  /** The scraps as typed: the categories of the leaves they name. */
  ghost predicate Typed(orig: seq<Cat>, st: State) {
    && Ready(st) && st.pos == 0 && RefsLower(st.mem.Texts())
    && forall i :: 0 <= i < |st.scraps| ==>
         st.scraps[i].trans < |orig| && orig[st.scraps[i].trans] == st.scraps[i].cat
  }

  ghost function Leaves(scraps: seq<Scrap>): seq<Atom> {
    seq(|scraps|, i requires 0 <= i < |scraps| => Leaf(scraps[i].trans))
  }

  lemma LeafContent(texts: seq<seq<Token>>, base: nat, t: nat)
    requires t < base
    ensures Content(FlatText(texts, base, t)) == [Leaf(t)]
  {
    assert FlatText(texts, base, t) == [Leaf(t)];
    assert [Leaf(t)][1..] == [];
    assert Content([Leaf(t)]) == [Leaf(t)] + Content([]);
  }

  lemma {:induction false} LeavesContent(texts: seq<seq<Token>>, base: nat, scraps: seq<Scrap>)
    requires forall i :: 0 <= i < |scraps| ==> scraps[i].trans < base
    ensures ListContent(texts, base, scraps) == Leaves(scraps)
  {
    if scraps != [] {
      LeafContent(texts, base, scraps[0].trans);
      LeavesContent(texts, base, scraps[1..]);
      assert Leaves(scraps) == [Leaf(scraps[0].trans)] + Leaves(scraps[1..]);
    }
  }

  lemma TypedTraced(orig: seq<Cat>, st: State)
    requires Typed(orig, st)
    ensures Sealed(st, st.mem.Count()) && Traced(orig, st, st.mem.Count())
    ensures StateContent(st, st.mem.Count()) == Leaves(st.scraps)
  {
    hide FlatText, Content;
    var base := st.mem.Count();
    LeavesContent(st.mem.Texts(), base, st.scraps);
    forall i | 0 <= i < |st.scraps| ensures TracedScrap(orig, st.mem.Texts(), base, st.scraps[i]) {
      LeafContent(st.mem.Texts(), base, st.scraps[i].trans);
    }
  }

  lemma {:induction false} FinishContent(texts: seq<seq<Token>>, base: nat, scraps: seq<Scrap>, j: nat)
    requires j <= |scraps|
    ensures Content(Flat(texts, base, Finish(scraps, j), |texts|)) == ListContent(texts, base, scraps[..j])
  {
    hide Flat, Content, ListContent;
    if j == 0 {
      NoContent(texts, base, scraps[..0]);
    } else {
      FinishContent(texts, base, scraps, j - 1);
      var s := scraps[j - 1];
      FinishOneContent(texts, base, Finish(scraps, j - 1), s, j > 1);
      assert scraps[..j] == scraps[..j - 1] + [s];
      ListContentConcat(texts, base, scraps[..j - 1], [s]);
      ListContentOne(texts, base, s);
    }
  }

  lemma NoContent(texts: seq<seq<Token>>, base: nat, none: seq<Scrap>)
    requires none == []
    ensures Content(Flat(texts, base, [], |texts|)) == [] == ListContent(texts, base, none)
  {
    BlankContent(texts, base);
  }

  /** One more scrap, brought back out of math. */
  lemma FinishOneContent(texts: seq<seq<Token>>, base: nat, a: seq<Token>, s: Scrap, spaced: bool)
    ensures var out := a + (if spaced then [Sym(Ch(' '))] else []) + (if s.left == Yes then [Sym(Ch('$'))] else [])
                + [Ref(s.trans)] + (if s.right == Yes then [Sym(Ch('$'))] else []);
      Content(Flat(texts, base, out, |texts|)) == Content(Flat(texts, base, a, |texts|)) + ContentOf(texts, base, s)
  {
    hide Flat, Content;
    var b := a + (if spaced then [Sym(Ch(' '))] else []);
    var c := b + (if s.left == Yes then [Sym(Ch('$'))] else []);
    var d := c + [Ref(s.trans)];
    assert a + [] == a && b + [] == b && d + [] == d;
    ContentSnoc(texts, base, a, Sym(Ch(' ')));
    ContentSnoc(texts, base, b, Sym(Ch('$')));
    ContentSnoc(texts, base, c, Ref(s.trans));
    ContentSnoc(texts, base, d, Sym(Ch('$')));
  }

  lemma ContentSnoc(texts: seq<seq<Token>>, base: nat, a: seq<Token>, tok: Token)
    ensures Content(Flat(texts, base, a + [tok], |texts|))
         == Content(Flat(texts, base, a, |texts|))
          + (if tok.Sym? && !IsContent(Mk(tok.m)) then [] else Content(FlatToken(texts, base, tok, |texts|)))
  {
    FlatSnoc(texts, base, a, tok, |texts|);
    ContentConcat(Flat(texts, base, a, |texts|), FlatToken(texts, base, tok, |texts|));
    if tok.Sym? {
      assert [Mk(tok.m)][1..] == [];
    }
  }

  /** The text that `translate` returns has the content of the scraps it is made of. */
  lemma FinalContent(end: State, base: nat)
    requires Sealed(end, base)
    ensures var out := Finish(end.scraps, |end.scraps|);
      && end.mem.Frozen() && end.mem.Append(out).Frozen()
      && Content(FlatText(end.mem.Append(out).Texts(), base, end.mem.Count())) == StateContent(end, base)
  {
    hide Flat, Content, FlatText, ListContent;
    var texts := end.mem.Texts();
    var out := Finish(end.scraps, |end.scraps|);
    FinishContent(texts, base, end.scraps, |end.scraps|);
    assert end.scraps[..|end.scraps|] == end.scraps;
    FinishRefs(end.scraps, |end.scraps|, end.mem.Count());
    AppendTexts(end.mem, out);
    PenBecomesScrap([], texts, end.mem.Append(out).Texts(), base, Pen(No, No, out), Scrap(Insert, No, No, |texts|));
  }

  /**
   Conservation from end to end. The text `translate` returns has at most one piece of
   content per scrap typed, and exactly as many if and only if the run is loss free; then
   it is the sequence of leaves in the order they were typed, up to angle brackets.
   */
  lemma LeavesConserved(orig: seq<Cat>, st: State, run: seq<Action>)
    requires Typed(orig, st) && IsRun(st, run)
    ensures After(st, run).mem.Frozen()
    ensures var end, base := After(st, run), st.mem.Count();
      var out := Finish(end.scraps, |end.scraps|);
      var content := Content(FlatText(end.mem.Append(out).Texts(), base, end.mem.Count()));
      && |content| <= |st.scraps|
      && (|content| == |st.scraps| <==> LossFree(st, run, base))
      && (LossFree(st, run, base) ==> Bracketed(orig, Leaves(st.scraps), content))
  {
    hide Flat, Content, FlatText, ListContent, LossFree, Bracketed, After;
    var base := st.mem.Count();
    TypedTraced(orig, st);
    Conservation(orig, st, run, base);
    FinalContent(After(st, run), base);
  }

  // ----- The run the table chooses -----

  ghost predicate FollowsTable(st: State, run: seq<Action>, forceLines: bool)
    requires IsRun(st, run)
    decreases |run|
  {
    run == [] ||
    (WindowPadded(st);
     && run[0] == Match(WindowAt(st.scraps, st.pos), forceLines)
     && FollowsTable(Apply(st, run[0]), run[1..], forceLines))
  }

  /** CWEAVE's own reduction is a run. */
  lemma {:induction false} ReducedIsRun(st: State, forceLines: bool) returns (run: seq<Action>)
    requires Ready(st)
    ensures IsRun(st, run) && FollowsTable(st, run, forceLines)
    ensures After(st, run) == Reduced(st, forceLines) && After(st, run).pos == |After(st, run).scraps|
    decreases |st.scraps|, RankSum(st.scraps), |st.scraps| - st.pos
  {
    hide Apply, Match, MatchCategory, Sound;
    if st.pos == |st.scraps| {
      run := [];
    } else {
      WindowPadded(st);
      var a := Match(WindowAt(st.scraps, st.pos), forceLines);
      StepProgress(st, forceLines);
      var rest := ReducedIsRun(Step(st, forceLines), forceLines);
      run := [a] + rest;
      assert run[1..] == rest;
    }
  }

  /** CWEAVE's own reduction never lets production 84 or 85 consume a bracket with something squashed into it. */
  ghost predicate KeepsAll(st: State, forceLines: bool, base: nat)
    requires Ready(st)
    decreases |st.scraps|, RankSum(st.scraps), |st.scraps| - st.pos
  {
    st.pos == |st.scraps| ||
    (WindowPadded(st);
     StepProgress(st, forceLines);
     var w := WindowAt(st.scraps, st.pos);
     && (IsBracket(Match(w, forceLines), w) ==> |ContentOf(st.mem.Texts(), base, st.scraps[st.pos])| == 1)
     && KeepsAll(Step(st, forceLines), forceLines, base))
  }

  lemma {:induction false} TableKeepsAll(st: State, run: seq<Action>, forceLines: bool, base: nat)
    requires Ready(st) && IsRun(st, run) && FollowsTable(st, run, forceLines)
    requires After(st, run).pos == |After(st, run).scraps|
    ensures LossFree(st, run, base) <==> KeepsAll(st, forceLines, base)
    decreases |run|
  {
    hide Apply, Match, MatchCategory, Sound, ContentOf;
    if run != [] {
      WindowPadded(st);
      StepProgress(st, forceLines);
      TableKeepsAll(Apply(st, run[0]), run[1..], forceLines, base);
    }
  }
}
