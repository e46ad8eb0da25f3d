/**
 What a text shows: its leaves and marks, without the dollars and braces with which the mode is
 changed. What a production shows depends on categories and on what its scraps show, so a
 reduction can be followed on those.
 */
module ScrapSeen {
  import opened ScrapGrammar
  import opened ScrapText
  import opened ScrapRewrite
  import opened ScrapInvariants
  import opened ScrapLevels

  predicate Shown(a: Atom) {
    a != Mk(Ch('$')) && a != Mk(Ch('{')) && a != Mk(Ch('}'))
  }

  ghost function Seen(atoms: seq<Atom>): seq<Atom> {
    if atoms == [] then [] else (if Shown(atoms[0]) then [atoms[0]] else []) + Seen(atoms[1..])
  }

  lemma {:induction false} SeenConcat(a: seq<Atom>, b: seq<Atom>)
    ensures Seen(a + b) == Seen(a) + Seen(b)
  {
    hide Shown;
    if a == [] {
      assert a + b == b;
    } else {
      SeenConcat(a[1..], b);
      assert (a + b)[1..] == a[1..] + b && (a + b)[0] == a[0];
      var first := if Shown(a[0]) then [a[0]] else [];
      assert Seen(a + b) == first + (Seen(a[1..]) + Seen(b));
      Associative(first, Seen(a[1..]), Seen(b));
    }
  }

  lemma SeenOne(a: Atom)
    ensures Seen([a]) == if Shown(a) then [a] else []
  {
    assert [a][1..] == [];
  }

  /** A scrap as far as it matters here. */
  datatype Seg = Seg(cat: Cat, seen: seq<Atom>)

  ghost function SegOf(texts: seq<seq<Token>>, base: nat, s: Scrap): Seg {
    Seg(s.cat, Seen(FlatText(texts, base, s.trans)))
  }

  ghost function Segs(texts: seq<seq<Token>>, base: nat, scraps: seq<Scrap>): (o: seq<Seg>)
    ensures |o| == |scraps|
  {
    seq(|scraps|, i requires 0 <= i < |scraps| => SegOf(texts, base, scraps[i]))
  }

  // ----- A production -----

  function CatOf(o: seq<Seg>, i: nat): Cat {
    if i < |o| then o[i].cat else Zero
  }

  function View(o: seq<Seg>, pos: nat): Window {
    Window(CatOf(o, pos), CatOf(o, pos + 1), CatOf(o, pos + 2), CatOf(o, pos + 3))
  }

  /** What an item shows. */
  function Shows1(item: Item, o: seq<Seg>, pos: nat): seq<Atom> {
    if item.Whole? then (if pos + item.i < |o| then o[pos + item.i].seen else [])
    else if Shown(Mk(item.m)) then [Mk(item.m)] else []
  }

  function ShowsFrom(items: seq<Item>, i: nat, o: seq<Seg>, pos: nat): seq<Atom>
    requires i <= |items|
    decreases |items| - i
  {
    if i == |items| then [] else Shows1(items[i], o, pos) + ShowsFrom(items, i + 1, o, pos)
  }

  function Redone(o: seq<Seg>, pos: nat, a: Action): seq<Seg> {
    match a
    case NoMatch => o
    case Relabel(_, at, c, _) => if pos + at < |o| then o[pos + at := o[pos + at].(cat := c)] else o
    case Rewrite(_, at, k, c, _, items, _) =>
      if pos + at + k > |o| then o else o[..pos + at] + [Seg(c, ShowsFrom(items, 0, o, pos))] + o[pos + at + k..]
  }

  function Moved(pos: nat, a: Action): nat {
    if a.NoMatch? then pos + 1 else Move(pos, a.d)
  }

  lemma ViewIs(texts: seq<seq<Token>>, base: nat, scraps: seq<Scrap>, pos: nat)
    ensures View(Segs(texts, base, scraps), pos) == WindowAt(scraps, pos)
  {
    hide Seen, FlatText;
  }

  ghost function PenSeen(texts: seq<seq<Token>>, base: nat, p: Pen): seq<Atom> {
    Seen(Flat(texts, base, p.out, |texts|))
  }

  /** The tokens that change the mode do not show. */
  lemma SwitchSeen(texts: seq<seq<Token>>, base: nat, p: Pen, need: Math)
    requires need != Maybe
    ensures PenSeen(texts, base, SwitchTo(p, need)) == PenSeen(texts, base, p)
  {
    hide Flat, Seen;
    if p.cur != Maybe && p.cur != need {
      SwitchFlat(texts, base, p, need);
      var s := if need == Yes then OPEN_MATH else CLOSE_MATH;
      var f := Flat(texts, base, p.out, |texts|);
      SeenConcat(f, [Mk(s[0].m)]);
      SeenConcat(f + [Mk(s[0].m)], [Mk(s[1].m)]);
      SeenConcat(f + [Mk(s[0].m)] + [Mk(s[1].m)], [Mk(s[2].m)]);
      SeenOne(Mk(s[0].m));
      SeenOne(Mk(s[1].m));
      SeenOne(Mk(s[2].m));
    }
  }

  lemma MarkSeen(texts: seq<seq<Token>>, base: nat, p: Pen, q: Pen, mark: Mark)
    requires q.out == p.out + [Sym(mark)]
    ensures PenSeen(texts, base, q) == PenSeen(texts, base, p) + if Shown(Mk(mark)) then [Mk(mark)] else []
  {
    hide Flat, Seen;
    FlatSnoc(texts, base, p.out, Sym(mark), |texts|);
    SeenConcat(Flat(texts, base, p.out, |texts|), [Mk(mark)]);
    SeenOne(Mk(mark));
    FlatSym(texts, base, mark, |texts|);
  }

  lemma ItemSeen(texts: seq<seq<Token>>, base: nat, p: Pen, item: Item, scraps: seq<Scrap>, pos: nat)
    requires item.Whole? ==> pos + item.i < |scraps|
    ensures PenSeen(texts, base, AppendItem(p, item, scraps, pos))
         == PenSeen(texts, base, p) + Shows1(item, Segs(texts, base, scraps), pos)
  {
    hide Flat, FlatText, Seen, SwitchTo, Shown;
    match item
    case Whole(i) =>
      var s := scraps[pos + i];
      var q := if s.left == Maybe then p else SwitchTo(p, s.left);
      if s.left != Maybe { SwitchSeen(texts, base, p, s.left); }
      FlatSnoc(texts, base, q.out, Ref(s.trans), |texts|);
      FlatTextIs(texts, base, s.trans);
      SeenConcat(Flat(texts, base, q.out, |texts|), FlatText(texts, base, s.trans));
    case Big(mark) =>
      SwitchSeen(texts, base, p, NeedOf(mark));
      MarkSeen(texts, base, SwitchTo(p, NeedOf(mark)), AppendItem(p, item, scraps, pos), mark);
    case Raw(mark) => MarkSeen(texts, base, p, AppendItem(p, item, scraps, pos), mark);
    case Angle(mark) => MarkSeen(texts, base, p, AppendItem(p, item, scraps, pos), mark);
  }

  lemma {:induction false} AppendFromSeen(texts: seq<seq<Token>>, base: nat, p: Pen, items: seq<Item>, i: nat, scraps: seq<Scrap>,
                                          pos: nat)
    requires i <= |items| && InRange(items, |scraps|, pos)
    ensures PenSeen(texts, base, AppendFrom(p, items, i, scraps, pos))
         == PenSeen(texts, base, p) + ShowsFrom(items, i, Segs(texts, base, scraps), pos)
    decreases |items| - i
  {
    hide PenSeen, Segs, Shows1, AppendItem;
    if i < |items| {
      var q, o := AppendItem(p, items[i], scraps, pos), Segs(texts, base, scraps);
      ItemSeen(texts, base, p, items[i], scraps, pos);
      AppendFromSeen(texts, base, q, items, i + 1, scraps, pos);
      Associative(PenSeen(texts, base, p), Shows1(items[i], o, pos), ShowsFrom(items, i + 1, o, pos));
    } else {
      assert PenSeen(texts, base, p) + [] == PenSeen(texts, base, p);
    }
  }

  lemma SegsFrame(texts: seq<seq<Token>>, texts': seq<seq<Token>>, base: nat, scraps: seq<Scrap>)
    requires Extends(texts, texts', base) && RefsLower(texts)
    requires forall i :: 0 <= i < |scraps| ==> scraps[i].trans < |texts|
    ensures Segs(texts', base, scraps) == Segs(texts, base, scraps)
  {
    hide FlatText, Seen;
    forall i | 0 <= i < |scraps| ensures SegOf(texts', base, scraps[i]) == SegOf(texts, base, scraps[i]) {
      FlatTextFrame(texts, texts', base, scraps[i].trans);
    }
  }

  lemma SegsReplace(texts: seq<seq<Token>>, base: nat, scraps: seq<Scrap>, j: nat, k: nat, s: Scrap)
    requires j + k <= |scraps|
    ensures var o := Segs(texts, base, scraps);
      Segs(texts, base, Replace(scraps, j, k, s)) == o[..j] + [SegOf(texts, base, s)] + o[j + k..]
  {
    hide SegOf;
  }

  lemma BlankSeen(texts: seq<seq<Token>>, base: nat)
    ensures PenSeen(texts, base, BLANK) == []
  {
  }

  lemma PenSeg(texts: seq<seq<Token>>, texts': seq<seq<Token>>, base: nat, p: Pen, s: Scrap)
    requires FlatText(texts', base, s.trans) == Flat(texts, base, p.out, |texts|)
    ensures SegOf(texts', base, s) == Seg(s.cat, PenSeen(texts, base, p))
  {
  }

  lemma RewriteRedone(st: State, a: Action, base: nat)
    requires Sealed(st, base) && Fires(st, a) && a.Rewrite? && a.reserve < 0
    ensures Apply(st, a).mem.Frozen() && Apply(st, a).pos == Moved(st.pos, a)
    ensures Segs(Apply(st, a).mem.Texts(), base, Apply(st, a).scraps) == Redone(Segs(st.mem.Texts(), base, st.scraps), st.pos, a)
  {
    hide Sound, Apply, Built, AppendFrom, SegOf, Seen, PenSeen, InRange, Similar, Recategorised, Extends, RefsLower, ShowsFrom, Segs,
      Replace, Retagged, Flat, FlatText, InOrder, RefsBelow;
    SealedParts(st, base);
    ApplySealed(st, a, base);
    var m, scraps, pen := AppliedForm(st, a);
    var texts, texts', j := st.mem.Texts(), Apply(st, a).mem.Texts(), st.pos + a.at;
    var s := Scrap(a.cat, pen.init, pen.cur, m.Count());
    PenBecomesScrap([], texts, texts', base, pen, s);
    PenSeg(texts, texts', base, pen, s);
    BlankSeen(texts, base);
    AppendFromSeen(texts, base, BLANK, a.items, 0, st.scraps, st.pos);
    var shown := ShowsFrom(a.items, 0, Segs(texts, base, st.scraps), st.pos);
    assert [] + shown == shown;
    SegsFrame(texts, texts', base, st.scraps);
    SegsReplace(texts', base, st.scraps, j, a.k, s);
  }

  lemma SealedParts(st: State, base: nat)
    requires Sealed(st, base)
    ensures RefsLower(st.mem.Texts()) && base <= |st.mem.Texts()| == st.mem.Count()
    ensures forall i :: 0 <= i < |st.scraps| ==> st.scraps[i].trans < st.mem.Count()
  {
  }

  lemma RelabelRedone(st: State, a: Action, base: nat)
    requires Fires(st, a) && !a.Rewrite?
    ensures Apply(st, a).mem.Frozen() && Apply(st, a).pos == Moved(st.pos, a)
    ensures Segs(Apply(st, a).mem.Texts(), base, Apply(st, a).scraps) == Redone(Segs(st.mem.Texts(), base, st.scraps), st.pos, a)
  {
    hide Sound, Built, Seen, FlatText;
    ActionFits(st, a);
  }

  /** A production does to what is shown what it does to the scraps. */
  lemma RedoneExact(st: State, a: Action, base: nat)
    requires Sealed(st, base) && Fires(st, a) && (a.Rewrite? ==> a.reserve < 0)
    ensures Apply(st, a).mem.Frozen() && Apply(st, a).pos == Moved(st.pos, a)
    ensures Segs(Apply(st, a).mem.Texts(), base, Apply(st, a).scraps) == Redone(Segs(st.mem.Texts(), base, st.scraps), st.pos, a)
  {
    hide Sound, Apply, Segs, Redone, Moved;
    if a.Rewrite? { RewriteRedone(st, a, base); } else { RelabelRedone(st, a, base); }
  }

  // ----- Following the table -----

  ghost predicate Shows(st: State, base: nat, o: seq<Seg>, pos: nat) {
    Sealed(st, base) && st.pos == pos && Segs(st.mem.Texts(), base, st.scraps) == o
  }

  /** From wherever this shows, CWEAVE's reduction ends in the one scrap p. */
  ghost predicate Ends(o: seq<Seg>, pos: nat, f: bool, p: Seg) {
    forall st: State, base: nat :: Shows(st, base, o, pos) ==> EndsIn(st, base, f, p)
  }

  ghost predicate EndsIn(st: State, base: nat, f: bool, p: Seg) {
    Ready(st) && var end := Reduced(st, f); Sealed(end, base) && Segs(end.mem.Texts(), base, end.scraps) == [p]
  }

  /** The table takes the list o at pos to o' at pos'. */
  ghost predicate Goes(o: seq<Seg>, pos: nat, f: bool, o': seq<Seg>, pos': nat) {
    && pos < |o| && Padded(View(o, pos))
    && var a := Match(View(o, pos), f);
       (a.Rewrite? ==> a.reserve < 0) && Redone(o, pos, a) == o' && Moved(pos, a) == pos'
  }

  lemma EndsAtEnd(p: Seg, f: bool)
    ensures Ends([p], 1, f, p)
  {
    hide Sealed, Segs;
    forall st: State, base: nat | Shows(st, base, [p], 1) ensures EndsIn(st, base, f, p) {
      StopsThere(st, base, f, p);
    }
  }

  lemma StopsThere(st: State, base: nat, f: bool, p: Seg)
    requires Shows(st, base, [p], 1)
    ensures EndsIn(st, base, f, p)
  {
    assert |st.scraps| == 1;
  }

  lemma EndsStep(o: seq<Seg>, pos: nat, f: bool, o': seq<Seg>, pos': nat, p: Seg)
    requires Goes(o, pos, f, o', pos') && Ends(o', pos', f, p)
    ensures Ends(o, pos, f, p)
  {
    hide Goes, Shows, EndsIn;
    forall st: State, base: nat | Shows(st, base, o, pos) ensures EndsIn(st, base, f, p) {
      StepShows(st, base, o, pos, f, o', pos');
      assert EndsIn(Step(st, f), base, f, p);
      StepEnds(st, base, f, p);
    }
  }

  lemma StepShows(st: State, base: nat, o: seq<Seg>, pos: nat, f: bool, o': seq<Seg>, pos': nat)
    requires Shows(st, base, o, pos) && Goes(o, pos, f, o', pos')
    ensures Ready(st) && st.pos < |st.scraps| && Shows(Step(st, f), base, o', pos')
  {
    hide Match, MatchCategory, Sound, Apply, Segs, View, Redone, Moved, InOrder, Extends, RefsBelow, WindowAt, Built;
    WindowPadded(st);
    var a := Match(View(o, pos), f);
    ViewIs(st.mem.Texts(), base, st.scraps, pos);
    ApplySealed(st, a, base);
    RedoneExact(st, a, base);
  }

  lemma StepEnds(st: State, base: nat, f: bool, p: Seg)
    requires Ready(st) && st.pos < |st.scraps| && EndsIn(Step(st, f), base, f, p)
    ensures EndsIn(st, base, f, p)
  {
    hide Step, Sealed, Segs;
  }

  // ----- The final text -----

  /** What the scraps show, with a blank between any two. */
  function Spaced(o: seq<Seg>): seq<Atom> {
    if o == [] then []
    else if |o| == 1 then o[0].seen
    else Spaced(o[..|o| - 1]) + [Mk(Ch(' '))] + o[|o| - 1].seen
  }

  ghost function OutSeen(texts: seq<seq<Token>>, base: nat, out: seq<Token>): seq<Atom> {
    Seen(Flat(texts, base, out, |texts|))
  }

  lemma OutSnoc(texts: seq<seq<Token>>, base: nat, out: seq<Token>, tok: Token)
    ensures OutSeen(texts, base, out + [tok]) == OutSeen(texts, base, out) + Seen(FlatToken(texts, base, tok, |texts|))
  {
    hide Flat, Seen;
    FlatSnoc(texts, base, out, tok, |texts|);
    SeenConcat(Flat(texts, base, out, |texts|), FlatToken(texts, base, tok, |texts|));
  }

  lemma OutSym(texts: seq<seq<Token>>, base: nat, out: seq<Token>, m: Mark)
    ensures OutSeen(texts, base, out + [Sym(m)]) == OutSeen(texts, base, out) + if Shown(Mk(m)) then [Mk(m)] else []
  {
    hide Flat, Seen, Shown;
    OutSnoc(texts, base, out, Sym(m));
    FlatSym(texts, base, m, |texts|);
    SeenOne(Mk(m));
  }

  /** One scrap more, with its dollars and the blank before it. */
  lemma FinishOne(texts: seq<seq<Token>>, base: nat, out: seq<Token>, blank: bool, left: bool, right: bool, t: nat)
    ensures var more := out + (if blank then [Sym(Ch(' '))] else []) + (if left then [Sym(Ch('$'))] else []) + [Ref(t)]
                        + (if right then [Sym(Ch('$'))] else []);
      OutSeen(texts, base, more)
      == OutSeen(texts, base, out) + (if blank then [Mk(Ch(' '))] else []) + Seen(FlatText(texts, base, t))
  {
    hide Flat, FlatText, Seen, OutSeen;
    var a := out + if blank then [Sym(Ch(' '))] else [];
    var b := a + if left then [Sym(Ch('$'))] else [];
    var c := b + [Ref(t)];
    OutSym(texts, base, out, Ch(' '));
    OutSym(texts, base, a, Ch('$'));
    OutSnoc(texts, base, b, Ref(t));
    OutSym(texts, base, c, Ch('$'));
    FlatTextIs(texts, base, t);
    assert out + [] == out && a + [] == a && c + [] == c;
    var x := OutSeen(texts, base, a);
    assert x + [] == x && OutSeen(texts, base, out) + [] == OutSeen(texts, base, out);
    assert OutSeen(texts, base, c) + [] == OutSeen(texts, base, c);
  }

  lemma {:induction false} FinishSpaced(texts: seq<seq<Token>>, base: nat, scraps: seq<Scrap>, j: nat)
    requires j <= |scraps|
    ensures OutSeen(texts, base, Finish(scraps, j)) == Spaced(Segs(texts, base, scraps)[..j])
  {
    hide FlatText, OutSeen, Seen;
    if j == 0 {
      NothingSeen(texts, base);
    } else {
      FinishSpaced(texts, base, scraps, j - 1);
      var s, o := scraps[j - 1], Segs(texts, base, scraps);
      FinishOne(texts, base, Finish(scraps, j - 1), j > 1, s.left == Yes, s.right == Yes, s.trans);
      assert o[..j][..j - 1] == o[..j - 1] && o[..j][j - 1] == o[j - 1];
      if j == 1 {
        assert OutSeen(texts, base, []) == [] && Finish(scraps, 0) == [];
        assert [] + [] + o[0].seen == o[0].seen;
      }
    }
  }

  lemma NothingSeen(texts: seq<seq<Token>>, base: nat)
    ensures OutSeen(texts, base, []) == []
  {
  }

  /** The final text shows what is left of the scraps, with one blank between any two. */
  lemma FinalSpaced(end: State, base: nat)
    requires Sealed(end, base)
    ensures Seen(FinalText(end, base)) == Spaced(Segs(end.mem.Texts(), base, end.scraps))
  {
    hide Flat, FlatText, Seen, Segs, Spaced;
    var out, texts := Finish(end.scraps, |end.scraps|), end.mem.Texts();
    FinishSpaced(texts, base, end.scraps, |end.scraps|);
    FinishRefs(end.scraps, |end.scraps|, end.mem.Count());
    AppendTexts(end.mem, out);
    PenBecomesScrap([], texts, end.mem.Append(out).Texts(), base, Pen(No, No, out), Scrap(Insert, No, No, |texts|));
    var o := Segs(texts, base, end.scraps);
    assert o[..|end.scraps|] == o;
  }
}
