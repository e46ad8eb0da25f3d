/**
 Steps of the reduction on what the scraps show, and the insert that ends every translation: it
 goes into the scrap before it as soon as it is at distance three, and nothing else changes.
 */
module ScrapInserts {
  import opened ScrapGrammar
  import opened ScrapText
  import opened ScrapRewrite
  import opened ScrapInvariants
  import opened ScrapDocs
  import opened ScrapSeen

  /** No insert, and no end of a macro argument. */
  ghost predicate Clean(v: seq<Seg>) {
    forall i :: 0 <= i < |v| ==> CleanCat(v[i].cat)
  }

  predicate CleanCat(c: Cat) {
    c != Zero && c != Insert && c != EndArg
  }

  lemma {:induction false} CleanConcat(a: seq<Seg>, b: seq<Seg>)
    ensures Clean(a + b) <==> Clean(a) && Clean(b)
  {
    assert Clean(a + b) ==> forall i :: 0 <= i < |b| ==> b[i] == (a + b)[|a| + i];
    assert Clean(a + b) ==> forall i :: 0 <= i < |a| ==> a[i] == (a + b)[i];
  }

  // ----- Windows -----

  lemma {:induction false} ViewRest(p: seq<Seg>, x: seq<Seg>)
    ensures View(p + x, |p|) == View(x, 0)
  {
  }

  lemma {:induction false} ViewPadded(v: seq<Seg>, q: nat)
    requires Clean(v) && q < |v|
    ensures Padded(View(v, q))
  {
  }

  /** Without inserts and macro arguments the switch on the category decides. */
  lemma {:induction false} CleanSwitch(v: seq<Seg>, q: nat, f: bool)
    requires Clean(v) && q < |v|
    ensures Padded(View(v, q)) && Match(View(v, q), f) == MatchCategory(View(v, q), f)
  {
    hide Match, MatchCategory, Makes;
    DocMatch(View(v, q), f, Match(View(v, q), f));
  }

  // ----- The last insert -----

  /** The list before the insert b has gone into its last element. */
  function Unmerged(v: seq<Seg>, a: seq<Atom>, b: seq<Atom>): seq<Seg>
    requires v != []
  {
    v[..|v| - 1] + [Seg(v[|v| - 1].cat, a), Seg(Insert, b)]
  }

  lemma {:induction false} UnmergedForm(v: seq<Seg>, a: seq<Atom>, b: seq<Atom>)
    requires Clean(v) && v != []
    ensures var u := Unmerged(v, a, b);
      && |u| == |v| + 1 && u[|v| - 1] == Seg(v[|v| - 1].cat, a) && u[|v|] == Seg(Insert, b) && u[..|v| - 1] == v[..|v| - 1]
    ensures forall j :: 0 <= j < |v| ==> CatOf(Unmerged(v, a, b), j) == v[j].cat
  {
  }

  lemma {:induction false} AbsorbWindow(u: seq<Seg>, v: seq<Seg>, q: nat, f: bool, at: nat)
    requires Clean(v) && |u| == |v| + 1 && u[|v|].cat == Insert && q + at + 1 == |v| && at < 3
    requires forall j :: 0 <= j < |v| ==> CatOf(u, j) == v[j].cat
    ensures Padded(View(u, q)) && Match(View(u, q), f) == Rewrite(0, at, 2, v[|v| - 1].cat, at as int - 2, Pair(at), -1)
  {
    hide Match, Sound, Covers, Steady, Pair, CatOf;
    var w := View(u, q);
    assert CatOf(u, q + at + 1) == Insert && (at < 2 ==> CatOf(u, q + at + 2) == Zero) && (at < 1 ==> CatOf(u, q + 3) == Zero) by {
      EndCats(u, q, at);
    }
    forall i | 0 <= i <= at ensures CleanCat(w.At(i)) {
      assert CatOf(u, q + i) == v[q + i].cat;
    }
    assert w.At(at) == CatOf(u, q + at);
    InsertMatch(w, f, at);
  }

  lemma {:induction false} EndCats(u: seq<Seg>, q: nat, at: nat)
    requires q + at + 2 == |u| && u[q + at + 1].cat == Insert
    ensures CatOf(u, q + at + 1) == Insert && CatOf(u, q + at + 2) == Zero && (at == 0 ==> CatOf(u, q + 3) == Zero)
  {
  }

  /** The insert comes into view, three scraps away; or at the beginning of the list. */
  lemma {:induction false} Absorb(v: seq<Seg>, q: nat, f: bool, p: Seg, a: seq<Atom>, b: seq<Atom>)
    requires Clean(v) && q < |v| && (|v| - q == 3 || (q == 0 && |v| < 3)) && v[|v| - 1].seen == a + b && Ends(v, q, f, p)
    ensures Ends(Unmerged(v, a, b), q, f, p)
  {
    hide Ends, Match, Sound, Covers, Steady, View, Clean, Unmerged, Pair, Padded, CatOf;
    var u, at := Unmerged(v, a, b), |v| - q - 1;
    UnmergedForm(v, a, b);
    AbsorbWindow(u, v, q, f, at);
    InsertSeen(u, q, at);
    assert u[|v| + 1..] == [];
    assert v[..|v| - 1] + [v[|v| - 1]] + [] == v;
    assert Seg(v[|v| - 1].cat, a + b) == v[|v| - 1];
    assert Goes(u, q, f, v, q);
    EndsStep(u, q, f, v, q, p);
  }

  lemma {:induction false} InsertSeen(u: seq<Seg>, q: nat, at: nat)
    requires q + at + 1 < |u|
    ensures u[q + at + 1].cat == Insert ==> ShowsFrom(Pair(at), 0, u, q) == u[q + at].seen + u[q + at + 1].seen
  {
    var items := Pair(at);
    assert ShowsFrom(items, 2, u, q) == [];
    assert ShowsFrom(items, 1, u, q) == u[q + at + 1].seen + [];
    assert u[q + at + 1].seen + [] == u[q + at + 1].seen;
  }

  lemma {:induction false} InsertMatch(w: Window, f: bool, at: nat)
    requires at < 3 && Padded(w) && w.At(at + 1) == Insert && forall i :: 0 <= i <= at ==> CleanCat(w.At(i))
    ensures Match(w, f) == Rewrite(0, at, 2, w.At(at), at as int - 2, Pair(at), -1)
  {
    hide Sound, Covers, Steady, MatchCategory, Pair;
    assert CleanCat(w.At(0));
    assert at > 0 ==> CleanCat(w.At(1));
    assert at > 1 ==> CleanCat(w.At(2));
  }

  /**
   The reduction of v from q on ends in p; and also before the insert b has gone into the last
   element, if it is not nearer than three, or q is the beginning.
   */
  ghost predicate Good(v: seq<Seg>, q: nat, f: bool, p: Seg, b: seq<Atom>) {
    && Ends(v, q, f, p)
    && (q < |v| && (|v| - q >= 3 || q == 0) ==>
          forall a: seq<Atom> :: v[|v| - 1].seen == a + b ==> Ends(Unmerged(v, a, b), q, f, p))
  }

  /** The same step is taken with the insert still to come. */
  ghost predicate Lifts(v: seq<Seg>, q: nat, f: bool, v': seq<Seg>, q': nat, b: seq<Atom>)
    requires v != [] && v' != []
  {
    v'[|v'| - 1].seen == v[|v| - 1].seen
    && forall a: seq<Atom> :: v[|v| - 1].seen == a + b ==> Goes(Unmerged(v, a, b), q, f, Unmerged(v', a, b), q')
  }

  lemma {:induction false} GoodStep(v: seq<Seg>, q: nat, f: bool, v': seq<Seg>, q': nat, p: Seg, b: seq<Atom>)
    requires Clean(v) && Goes(v, q, f, v', q') && Ends(v', q', f, p)
    requires |v| - q >= 4 ==>
      Good(v', q', f, p, b) && q' < |v'| && (|v'| - q' >= 3 || q' == 0) && Lifts(v, q, f, v', q', b)
    ensures Good(v, q, f, p, b)
  {
    hide Goes, Ends, Unmerged;
    GoesInside(v, q, f, v', q');
    EndsStep(v, q, f, v', q', p);
    forall a: seq<Atom> | v[|v| - 1].seen == a + b && (|v| - q >= 3 || q == 0) ensures Ends(Unmerged(v, a, b), q, f, p) {
      if |v| - q >= 4 {
        EndsStep(Unmerged(v, a, b), q, f, Unmerged(v', a, b), q', p);
      } else {
        Absorb(v, q, f, p, a, b);
      }
    }
  }

  lemma {:induction false} GoesInside(v: seq<Seg>, q: nat, f: bool, v': seq<Seg>, q': nat)
    requires Goes(v, q, f, v', q')
    ensures q < |v|
  {
  }

  lemma {:induction false} GoodEnds(v: seq<Seg>, q: nat, f: bool, p: Seg, b: seq<Atom>)
    requires Good(v, q, f, p, b)
    ensures Ends(v, q, f, p)
  {
  }

  // ----- Steps in a context -----

  /** No production applies to what begins with x. */
  lemma {:induction false} GoodQuiet(pre: seq<Seg>, x: Seg, rest: seq<Seg>, f: bool, p: Seg, b: seq<Atom>)
    requires Clean(pre + ([x] + rest)) && Padded(View([x] + rest, 0)) && Match(View([x] + rest, 0), f) == NoMatch
    requires Good(pre + [x] + rest, |pre| + 1, f, p, b)
    ensures Good(pre + ([x] + rest), |pre|, f, p, b)
  {
    hide Match, Good, Ends, Padded;
    var v, q := pre + ([x] + rest), |pre|;
    assert pre + [x] + rest == v;
    ViewRest(pre, [x] + rest);
    GoodEnds(v, q + 1, f, p, b);
    assert Goes(v, q, f, v, q + 1);
    if |v| - q >= 4 { QuietLifts(v, q, f, b); }
    GoodStep(v, q, f, v, q + 1, p, b);
  }

  lemma {:induction false} QuietLifts(v: seq<Seg>, q: nat, f: bool, b: seq<Atom>)
    requires Goes(v, q, f, v, q + 1) && |v| - q >= 4 && Match(View(v, q), f) == NoMatch
    ensures Lifts(v, q, f, v, q + 1, b)
  {
    hide Match;
    forall a: seq<Atom> | v[|v| - 1].seen == a + b ensures Goes(Unmerged(v, a, b), q, f, Unmerged(v, a, b), q + 1) {
      assert View(Unmerged(v, a, b), q) == View(v, q);
    }
  }

  lemma {:induction false} ShowsSame(items: seq<Item>, i: nat, o: seq<Seg>, pos: nat, o': seq<Seg>, pos': nat)
    requires i <= |items| && forall j :: i <= j < |items| && items[j].Whole? ==> Shows1(items[j], o, pos) == Shows1(items[j], o', pos')
    ensures ShowsFrom(items, i, o, pos) == ShowsFrom(items, i, o', pos')
    decreases |items| - i
  {
    if i < |items| { ShowsSame(items, i + 1, o, pos, o', pos'); }
  }

  lemma {:induction false} RunShows(pre: seq<Seg>, run: seq<Seg>, rest: seq<Seg>, items: seq<Item>)
    requires Covers(items, 0, 0, |run|)
    ensures ShowsFrom(items, 0, pre + (run + rest), |pre|) == ShowsFrom(items, 0, run, 0)
  {
    hide Covers;
    var v := pre + (run + rest);
    CoversInRange(items, 0, 0, |run|);
    forall j | 0 <= j < |items| && items[j].Whole? ensures Shows1(items[j], v, |pre|) == Shows1(items[j], run, 0) {
      assert v[|pre| + items[j].i] == run[items[j].i];
    }
    ShowsSame(items, 0, v, |pre|, run, 0);
  }

  /** A production that combines all of run shows what its items show of run. */
  lemma {:induction false} Reduces(pre: seq<Seg>, run: seq<Seg>, rest: seq<Seg>, f: bool, a: Action)
    requires run != [] && Padded(View(run + rest, 0)) && Match(View(run + rest, 0), f) == a
    requires a.Rewrite? && a.at == 0 && a.k == |run| && a.reserve < 0 && Covers(a.items, 0, 0, |run|)
    ensures Goes(pre + (run + rest), |pre|, f, pre + ([Seg(a.cat, ShowsFrom(a.items, 0, run, 0))] + rest), Move(|pre|, a.d))
  {
    hide Match, Covers, Padded, ShowsFrom, View, Sound;
    var v, s := pre + (run + rest), Seg(a.cat, ShowsFrom(a.items, 0, run, 0));
    ViewRest(pre, run + rest);
    RunShows(pre, run, rest, a.items);
    assert v[..|pre|] == pre && v[|pre| + |run|..] == rest;
    assert pre + [s] + rest == pre + ([s] + rest);
  }

  lemma {:induction false} GoodReduces(pre: seq<Seg>, run: seq<Seg>, rest: seq<Seg>, f: bool, a: Action, new_: Seg, p: Seg, b: seq<Atom>)
    requires Clean(pre + (run + rest)) && run != [] && Padded(View(run + rest, 0)) && Match(View(run + rest, 0), f) == a
    requires a.Rewrite? && a.at == 0 && a.k == |run| && a.reserve < 0 && Covers(a.items, 0, 0, |run|)
    requires new_ == Seg(a.cat, ShowsFrom(a.items, 0, run, 0))
    requires Ends(pre + ([new_] + rest), Move(|pre|, a.d), f, p)
    ensures Ends(pre + (run + rest), |pre|, f, p)
    ensures |run| + |rest| < 4 || (a.d <= 0 && Enough(pre, rest, a.d) && Good(pre + ([new_] + rest), Move(|pre|, a.d), f, p, b)) ==>
      Good(pre + (run + rest), |pre|, f, p, b)
  {
    hide Match, Good, Ends, Covers, Padded, Goes;
    var v, v', q' := pre + (run + rest), pre + ([new_] + rest), Move(|pre|, a.d);
    Reduces(pre, run, rest, f, a);
    EndsStep(v, |pre|, f, v', q', p);
    if |run| + |rest| < 4 {
      GoodStep(v, |pre|, f, v', q', p, b);
    } else if a.d <= 0 && Enough(pre, rest, a.d) && Good(v', q', f, p, b) {
      ReduceLifts(pre, run, rest, f, a, new_, b);
      GoodStep(v, |pre|, f, v', q', p, b);
    }
  }

  /** After a production the end of the list is not nearer than three, unless the reducer is at its beginning. */
  predicate Enough(pre: seq<Seg>, rest: seq<Seg>, d: int) {
    rest != [] && (|pre| + 1 + |rest| - Move(|pre|, d) >= 3 || Move(|pre|, d) == 0)
  }

  lemma {:induction false} UnmergedRest(pre: seq<Seg>, rest: seq<Seg>, a: seq<Atom>, b: seq<Atom>)
    requires rest != []
    ensures Unmerged(pre + rest, a, b) == pre + Unmerged(rest, a, b)
  {
  }

  lemma {:induction false} ReduceLifts(pre: seq<Seg>, run: seq<Seg>, rest: seq<Seg>, f: bool, a: Action, new_: Seg, b: seq<Atom>)
    requires run != [] && Padded(View(run + rest, 0)) && Match(View(run + rest, 0), f) == a
    requires a.Rewrite? && a.at == 0 && a.k == |run| && a.reserve < 0 && Covers(a.items, 0, 0, |run|)
    requires new_ == Seg(a.cat, ShowsFrom(a.items, 0, run, 0)) && rest != [] && |run| + |rest| >= 4
    ensures Lifts(pre + (run + rest), |pre|, f, pre + ([new_] + rest), Move(|pre|, a.d), b)
  {
    hide Match, Covers, Padded, Goes, Unmerged;
    var v, v' := pre + (run + rest), pre + ([new_] + rest);
    assert v[|v| - 1] == rest[|rest| - 1] == v'[|v'| - 1];
    forall x: seq<Atom> | v[|v| - 1].seen == x + b ensures Goes(Unmerged(v, x, b), |pre|, f, Unmerged(v', x, b), Move(|pre|, a.d)) {
      var rest' := Unmerged(rest, x, b);
      UnmergedRest(pre, run + rest, x, b);
      UnmergedRest(run, rest, x, b);
      UnmergedRest(pre, [new_] + rest, x, b);
      UnmergedRest([new_], rest, x, b);
      UnmergedCats(run, rest, x, b);
      Reduces(pre, run, rest', f, a);
    }
  }

  lemma {:induction false} UnmergedCats(run: seq<Seg>, rest: seq<Seg>, a: seq<Atom>, b: seq<Atom>)
    requires rest != [] && |run| + |rest| >= 4
    ensures View(run + Unmerged(rest, a, b), 0) == View(run + rest, 0)
  {
    var x, y := run + Unmerged(rest, a, b), run + rest;
    assert forall i :: 0 <= i < |y| ==> x[i].cat == y[i].cat;
  }

  /** A production that only relabels the first of the rest. */
  lemma {:induction false} GoodRelabels(pre: seq<Seg>, x: Seg, rest: seq<Seg>, f: bool, a: Action, p: Seg, b: seq<Atom>)
    requires Clean(pre + ([x] + rest)) && Padded(View([x] + rest, 0)) && Match(View([x] + rest, 0), f) == a
    requires a.Relabel? && a.at == 0 && a.d <= 0
    requires Good(pre + ([x.(cat := a.cat)] + rest), Move(|pre|, a.d), f, p, b)
    ensures Good(pre + ([x] + rest), |pre|, f, p, b)
  {
    hide Match, Good, Ends, Padded, Goes;
    var x' := x.(cat := a.cat);
    var v, v', q' := pre + ([x] + rest), pre + ([x'] + rest), Move(|pre|, a.d);
    Relabels(pre, x, rest, f, a);
    GoodEnds(v', q', f, p, b);
    if 1 + |rest| >= 4 { RelabelLifts(pre, x, rest, f, a, b); }
    GoodStep(v, |pre|, f, v', q', p, b);
  }

  lemma {:induction false} Relabels(pre: seq<Seg>, x: Seg, rest: seq<Seg>, f: bool, a: Action)
    requires Padded(View([x] + rest, 0)) && Match(View([x] + rest, 0), f) == a && a.Relabel? && a.at == 0
    ensures Goes(pre + ([x] + rest), |pre|, f, pre + ([x.(cat := a.cat)] + rest), Move(|pre|, a.d))
  {
    hide Match, Padded;
    var v := pre + ([x] + rest);
    ViewRest(pre, [x] + rest);
    assert v[|pre| := x.(cat := a.cat)] == pre + ([x.(cat := a.cat)] + rest);
  }

  lemma {:induction false} RelabelLifts(pre: seq<Seg>, x: Seg, rest: seq<Seg>, f: bool, a: Action, b: seq<Atom>)
    requires Padded(View([x] + rest, 0)) && Match(View([x] + rest, 0), f) == a && a.Relabel? && a.at == 0 && |rest| >= 3
    ensures Lifts(pre + ([x] + rest), |pre|, f, pre + ([x.(cat := a.cat)] + rest), Move(|pre|, a.d), b)
  {
    hide Match, Padded, Goes, Unmerged;
    var x' := x.(cat := a.cat);
    var v, v' := pre + ([x] + rest), pre + ([x'] + rest);
    assert v[|v| - 1] == rest[|rest| - 1] == v'[|v'| - 1];
    forall y: seq<Atom> | v[|v| - 1].seen == y + b ensures Goes(Unmerged(v, y, b), |pre|, f, Unmerged(v', y, b), Move(|pre|, a.d)) {
      UnmergedRest(pre, [x] + rest, y, b);
      UnmergedRest([x], rest, y, b);
      UnmergedRest(pre, [x'] + rest, y, b);
      UnmergedRest([x'], rest, y, b);
      UnmergedCats([x], rest, y, b);
      Relabels(pre, x, Unmerged(rest, y, b), f, a);
    }
  }
}
