/**
 Runs of CWEAVE's reducer followed to their end. Which production fires, and the mode in
 which it leaves things, depends on categories and mathness alone; so a run can be followed
 on an outline of the scraps.
 */
module ScrapTrace {
  import opened ScrapGrammar
  import opened ScrapText
  import opened ScrapRewrite
  import opened ScrapInvariants
  import opened ScrapContent
  import opened ScrapLayout
  import opened ScrapOutdent

  /** A scrap in outline; size is the number of leaves and typed brackets in its text. */
  datatype Piece = Piece(cat: Cat, left: Math, right: Math, size: nat)

  ghost function PieceOf(texts: seq<seq<Token>>, base: nat, s: Scrap): Piece {
    Piece(s.cat, s.left, s.right, |ContentOf(texts, base, s)|)
  }

  ghost function Outline(texts: seq<seq<Token>>, base: nat, scraps: seq<Scrap>): (o: seq<Piece>)
    ensures |o| == |scraps|
  {
    seq(|scraps|, i requires 0 <= i < |scraps| => PieceOf(texts, base, scraps[i]))
  }

  // ----- A production in outline -----

  function CatOf(o: seq<Piece>, i: nat): Cat {
    if i < |o| then o[i].cat else Zero
  }

  function View(o: seq<Piece>, pos: nat): Window {
    Window(CatOf(o, pos), CatOf(o, pos + 1), CatOf(o, pos + 2), CatOf(o, pos + 3))
  }

  /** What an append does to init_mathness and cur_mathness. */
  function Tinge(m: (Math, Math), item: Item, o: seq<Piece>, pos: nat): (Math, Math) {
    match item
    case Whole(i) =>
      if pos + i >= |o| || o[pos + i].left == Maybe then m
      else (if m.1 == Maybe then o[pos + i].left else m.0, o[pos + i].right)
    case Big(mark) => (if m.1 == Maybe then NeedOf(mark) else m.0, NeedOf(mark))
    case Raw(_) => m
    case Angle(_) => (Yes, Yes)
  }

  function Tinges(m: (Math, Math), items: seq<Item>, i: nat, o: seq<Piece>, pos: nat): (Math, Math)
    requires i <= |items|
    decreases |items| - i
  {
    if i == |items| then m else Tinges(Tinge(m, items[i], o, pos), items, i + 1, o, pos)
  }

  function Sizes(o: seq<Piece>): nat {
    if o == [] then 0 else o[0].size + Sizes(o[1..])
  }

  function Redrawn(o: seq<Piece>, pos: nat, a: Action): seq<Piece> {
    match a
    case NoMatch => o
    case Relabel(_, at, c, _) => if pos + at < |o| then o[pos + at := o[pos + at].(cat := c)] else o
    case Rewrite(_, at, k, c, _, items, _) =>
      var j := pos + at;
      if j + k > |o| then o else
      var m := Tinges((Maybe, Maybe), items, 0, o, pos);
      var size := if |items| == 1 && items[0].Angle? then 1 else Sizes(o[j..j + k]);
      o[..j] + [Piece(c, m.0, m.1, size)] + o[j + k..]
  }

  function Moved(pos: nat, a: Action): nat {
    if a.NoMatch? then pos + 1 else Move(pos, a.d)
  }

  lemma ViewIs(texts: seq<seq<Token>>, base: nat, scraps: seq<Scrap>, pos: nat)
    ensures View(Outline(texts, base, scraps), pos) == WindowAt(scraps, pos)
  {
    hide ContentOf;
  }

  lemma {:induction false} TingesAre(texts: seq<seq<Token>>, base: nat, p: Pen, items: seq<Item>, i: nat, scraps: seq<Scrap>, pos: nat)
    requires i <= |items| && InRange(items, |scraps|, pos)
    ensures var q := AppendFrom(p, items, i, scraps, pos);
      Tinges((p.init, p.cur), items, i, Outline(texts, base, scraps), pos) == (q.init, q.cur)
    decreases |items| - i
  {
    hide ContentOf;
    if i < |items| {
      TingesAre(texts, base, AppendItem(p, items[i], scraps, pos), items, i + 1, scraps, pos);
    }
  }

  lemma {:induction false} SizesAre(texts: seq<seq<Token>>, base: nat, scraps: seq<Scrap>)
    ensures Sizes(Outline(texts, base, scraps)) == |ListContent(texts, base, scraps)|
  {
    hide ContentOf;
    if scraps != [] {
      SizesAre(texts, base, scraps[1..]);
      assert Outline(texts, base, scraps)[1..] == Outline(texts, base, scraps[1..]);
    }
  }

  /** Later texts do not change the outline. */
  lemma OutlineFrame(texts: seq<seq<Token>>, texts': seq<seq<Token>>, base: nat, scraps: seq<Scrap>)
    requires Extends(texts, texts', base) && RefsLower(texts)
    requires forall i :: 0 <= i < |scraps| ==> scraps[i].trans < |texts|
    ensures Outline(texts', base, scraps) == Outline(texts, base, scraps)
  {
    hide FlatText, Content;
    forall i | 0 <= i < |scraps| ensures PieceOf(texts', base, scraps[i]) == PieceOf(texts, base, scraps[i]) {
      FlatTextFrame(texts, texts', base, scraps[i].trans);
    }
  }

  /** The piece that a production makes. */
  lemma NewPiece(st: State, a: Action, base: nat)
    requires Sealed(st, base) && Fires(st, a) && a.Rewrite? && a.reserve < 0
    ensures Apply(st, a).mem.Frozen() && st.pos + a.at + a.k <= |st.scraps| && st.pos + a.at < |Apply(st, a).scraps|
    ensures var o, j := Outline(st.mem.Texts(), base, st.scraps), st.pos + a.at;
      var m := Tinges((Maybe, Maybe), a.items, 0, o, st.pos);
      PieceOf(Apply(st, a).mem.Texts(), base, Apply(st, a).scraps[j])
      == Piece(a.cat, m.0, m.1, if |a.items| == 1 && a.items[0].Angle? then 1 else Sizes(o[j..j + a.k]))
  {
    hide Sound, Apply, Built, AppendFrom, Content, Flat, FlatText, ListContent, InRange, Outline, Sizes, Similar, Recategorised,
      RefsLower, Extends, Tinges, Replace, WindowAt;
    ApplySealed(st, a, base);
    BuiltContent(st, a, base);
    BracketItems(st, a);
    AppliedScraps(st, a);
    var m, scraps, pen := AppliedForm(st, a);
    var texts, j := st.mem.Texts(), st.pos + a.at;
    PenBecomesScrap([], texts, Apply(st, a).mem.Texts(), base, pen, Apply(st, a).scraps[j]);
    TingesAre(texts, base, BLANK, a.items, 0, st.scraps, st.pos);
    SizesAre(texts, base, st.scraps[j..j + a.k]);
    OutlineSlice(texts, base, st.scraps, j, a.k);
  }

  lemma BracketItems(st: State, a: Action)
    requires Fires(st, a) && a.Rewrite?
    ensures IsBracket(a, WindowAt(st.scraps, st.pos)) <==> |a.items| == 1 && a.items[0].Angle?
  {
    hide Rank;
    if |a.items| == 1 && a.items[0].Angle? {
      assert !Covers(a.items, 0, a.at, a.k);
    }
  }

  lemma OutlineSlice(texts: seq<seq<Token>>, base: nat, scraps: seq<Scrap>, j: nat, k: nat)
    requires j + k <= |scraps|
    ensures Outline(texts, base, scraps)[j..j + k] == Outline(texts, base, scraps[j..j + k])
  {
    hide ContentOf;
  }

  lemma RewriteRedrawn(st: State, a: Action, base: nat)
    requires Sealed(st, base) && Fires(st, a) && a.Rewrite? && a.reserve < 0
    ensures Apply(st, a).mem.Frozen() && Apply(st, a).pos == Moved(st.pos, a)
    ensures Outline(Apply(st, a).mem.Texts(), base, Apply(st, a).scraps)
         == Redrawn(Outline(st.mem.Texts(), base, st.scraps), st.pos, a)
  {
    hide Sound, Apply, Built, AppendFrom, PieceOf, InRange, Similar, Recategorised, Extends, RefsLower, Tinges, Sizes, Outline,
      Replace, Retagged;
    ApplySealed(st, a, base);
    NewPiece(st, a, base);
    OutlineFrame(st.mem.Texts(), Apply(st, a).mem.Texts(), base, st.scraps);
    AppliedScraps(st, a);
    var m, scraps, pen := AppliedForm(st, a);
    OutlineReplace(Apply(st, a).mem.Texts(), base, st.scraps, st.pos + a.at, a.k, Apply(st, a).scraps[st.pos + a.at]);
  }

  lemma RelabelRedrawn(st: State, a: Action, base: nat)
    requires Fires(st, a) && !a.Rewrite?
    ensures Apply(st, a).mem.Frozen() && Apply(st, a).pos == Moved(st.pos, a)
    ensures Outline(Apply(st, a).mem.Texts(), base, Apply(st, a).scraps)
         == Redrawn(Outline(st.mem.Texts(), base, st.scraps), st.pos, a)
  {
    hide Sound, Built, ContentOf;
    ActionFits(st, a);
    if a.Relabel? {
      var j, texts := st.pos + a.at, st.mem.Texts();
      SameContent(texts, base, st.scraps[j], st.scraps[j].(cat := a.cat));
    }
  }

  lemma SameContent(texts: seq<seq<Token>>, base: nat, s: Scrap, s': Scrap)
    requires s'.trans == s.trans
    ensures ContentOf(texts, base, s') == ContentOf(texts, base, s)
  {
  }

  /** A production does to the outline what it does to the scraps. */
  lemma RedrawnExact(st: State, a: Action, base: nat)
    requires Sealed(st, base) && Fires(st, a) && (a.Rewrite? ==> a.reserve < 0)
    ensures Apply(st, a).mem.Frozen() && Apply(st, a).pos == Moved(st.pos, a)
    ensures Outline(Apply(st, a).mem.Texts(), base, Apply(st, a).scraps)
         == Redrawn(Outline(st.mem.Texts(), base, st.scraps), st.pos, a)
  {
    hide Sound, Apply, Outline, Redrawn, Moved;
    if a.Rewrite? { RewriteRedrawn(st, a, base); } else { RelabelRedrawn(st, a, base); }
  }

  lemma OutlineReplace(texts: seq<seq<Token>>, base: nat, scraps: seq<Scrap>, j: nat, k: nat, s: Scrap)
    requires j + k <= |scraps|
    ensures var o := Outline(texts, base, scraps);
      Outline(texts, base, Replace(scraps, j, k, s)) == o[..j] + [PieceOf(texts, base, s)] + o[j + k..]
  {
    hide PieceOf;
  }

  // ----- Following the table -----

  /** The outdents that a production puts in math, read off the outline. */
  function GainedAt(o: seq<Piece>, pos: nat, a: Action): nat {
    if a.Rewrite? && a.items == FN_BODY && pos < |o| && o[pos].right == Yes then 2 else 0
  }

  ghost predicate Shows(st: State, base: nat, o: seq<Piece>, pos: nat) {
    Sealed(st, base) && st.pos == pos && Outline(st.mem.Texts(), base, st.scraps) == o
  }

  /** From wherever this outline shows, the table leads to one scrap like p and puts g outdents in math. */
  ghost predicate Leads(o: seq<Piece>, pos: nat, forceLines: bool, p: Piece, g: nat) {
    forall st: State, base: nat :: Shows(st, base, o, pos) ==> EndsWith(st, base, forceLines, p, g)
  }

  ghost predicate EndsWith(st: State, base: nat, forceLines: bool, p: Piece, g: nat) {
    && Ready(st) && TableGained(st, forceLines) == g
    && var end := Reduced(st, forceLines);
       Sealed(end, base) && Outline(end.mem.Texts(), base, end.scraps) == [p]
  }

  lemma LeadsEnd(p: Piece, forceLines: bool)
    ensures Leads([p], 1, forceLines, p, 0)
  {
    hide Sealed, Outline;
    forall st: State, base: nat | Shows(st, base, [p], 1) ensures EndsWith(st, base, forceLines, p, 0) {
      AtEnd(st, base, p, forceLines);
    }
  }

  lemma AtEnd(st: State, base: nat, p: Piece, forceLines: bool)
    requires Shows(st, base, [p], 1)
    ensures EndsWith(st, base, forceLines, p, 0)
  {
    assert |st.scraps| == 1;
  }

  lemma LeadsAt(o: seq<Piece>, pos: nat, forceLines: bool, p: Piece, g: nat, st: State, base: nat)
    requires Leads(o, pos, forceLines, p, g) && Shows(st, base, o, pos)
    ensures EndsWith(st, base, forceLines, p, g)
  {
    hide EndsWith, Shows;
  }

  /** One production on the way. */
  lemma LeadsStep(o: seq<Piece>, pos: nat, forceLines: bool, a: Action, p: Piece, g: nat)
    requires pos < |o| && Padded(View(o, pos)) && a == Match(View(o, pos), forceLines) && (a.Rewrite? ==> a.reserve < 0)
    requires Leads(Redrawn(o, pos, a), Moved(pos, a), forceLines, p, g)
    ensures Leads(o, pos, forceLines, p, GainedAt(o, pos, a) + g)
  {
    hide Match, Redrawn, Moved, View, EndsWith, Shows, GainedAt, Padded;
    var n := GainedAt(o, pos, a) + g;
    forall st: State, base: nat | Shows(st, base, o, pos) ensures EndsWith(st, base, forceLines, p, n) {
      OneStep(st, base, o, pos, forceLines, a, p, g);
    }
  }

  lemma OneStep(st: State, base: nat, o: seq<Piece>, pos: nat, forceLines: bool, a: Action, p: Piece, g: nat)
    requires Shows(st, base, o, pos) && pos < |o| && Padded(View(o, pos)) && a == Match(View(o, pos), forceLines)
    requires a.Rewrite? ==> a.reserve < 0
    requires Leads(Redrawn(o, pos, a), Moved(pos, a), forceLines, p, g)
    ensures EndsWith(st, base, forceLines, p, GainedAt(o, pos, a) + g)
  {
    hide Match, Redrawn, Moved, View, EndsWith, Shows, GainedAt, Padded, Leads, Step, Ready, Fires, Apply;
    ShowsReady(st, base, o, pos);
    StepShows(st, base, o, pos, forceLines, a);
    LeadsAt(Redrawn(o, pos, a), Moved(pos, a), forceLines, p, g, Step(st, forceLines), base);
    ShowsReady(Step(st, forceLines), base, Redrawn(o, pos, a), Moved(pos, a));
    StepEnds(st, base, forceLines, p, g, a);
  }

  lemma ShowsReady(st: State, base: nat, o: seq<Piece>, pos: nat)
    requires Shows(st, base, o, pos)
    ensures Ready(st)
  {
  }

  lemma StepShows(st: State, base: nat, o: seq<Piece>, pos: nat, forceLines: bool, a: Action)
    requires Shows(st, base, o, pos) && pos < |o| && Padded(View(o, pos)) && a == Match(View(o, pos), forceLines)
    requires a.Rewrite? ==> a.reserve < 0
    ensures st.pos < |st.scraps| && Fires(st, a) && Step(st, forceLines) == Apply(st, a)
    ensures a == Match(WindowAt(st.scraps, st.pos), forceLines)
    ensures Shows(Step(st, forceLines), base, Redrawn(o, pos, a), Moved(pos, a))
    ensures GainedAt(o, pos, a) == Gained(st, a)
  {
    hide Match, MatchCategory, Sound, Apply, Outline, View, Redrawn, Moved, InOrder, Extends, RefsBelow, WindowAt, Built;
    WindowPadded(st);
    ViewIs(st.mem.Texts(), base, st.scraps, pos);
    ApplySealed(st, a, base);
    RedrawnExact(st, a, base);
    RightOf(st.mem.Texts(), base, st.scraps, pos);
  }

  lemma RightOf(texts: seq<seq<Token>>, base: nat, scraps: seq<Scrap>, i: nat)
    requires i < |scraps|
    ensures Outline(texts, base, scraps)[i].right == scraps[i].right
  {
    hide ContentOf;
  }

  lemma StepEnds(st: State, base: nat, forceLines: bool, p: Piece, g: nat, a: Action)
    requires Ready(st) && st.pos < |st.scraps| && Fires(st, a) && a == Match(WindowAt(st.scraps, st.pos), forceLines)
    requires Ready(Step(st, forceLines)) && EndsWith(Step(st, forceLines), base, forceLines, p, g)
    ensures EndsWith(st, base, forceLines, p, Gained(st, a) + g)
  {
    hide Match, MatchCategory, Sound, Apply, Outline, Sealed, Gained, Step;
  }

  // ----- An old-style function: f int *p; {} -----

  lemma TingesUnfold(m: (Math, Math), items: seq<Item>, o: seq<Piece>, pos: nat)
    requires |items| <= 5
    ensures var m1 := if |items| > 0 then Tinge(m, items[0], o, pos) else m;
      var m2 := if |items| > 1 then Tinge(m1, items[1], o, pos) else m1;
      var m3 := if |items| > 2 then Tinge(m2, items[2], o, pos) else m2;
      var m4 := if |items| > 3 then Tinge(m3, items[3], o, pos) else m3;
      Tinges(m, items, 0, o, pos) == if |items| > 4 then Tinge(m4, items[4], o, pos) else m4
  {
    hide Tinge;
    if |items| > 0 {
      var m1 := Tinge(m, items[0], o, pos);
      assert Tinges(m, items, 0, o, pos) == Tinges(m1, items, 1, o, pos);
      if |items| > 1 {
        var m2 := Tinge(m1, items[1], o, pos);
        assert Tinges(m1, items, 1, o, pos) == Tinges(m2, items, 2, o, pos);
        if |items| > 2 {
          var m3 := Tinge(m2, items[2], o, pos);
          assert Tinges(m2, items, 2, o, pos) == Tinges(m3, items, 3, o, pos);
          if |items| > 3 {
            var m4 := Tinge(m3, items[3], o, pos);
            assert Tinges(m3, items, 3, o, pos) == Tinges(m4, items, 4, o, pos);
            if |items| > 4 {
              assert Tinges(m4, items, 4, o, pos) == Tinges(Tinge(m4, items[4], o, pos), items, 5, o, pos);
            }
          }
        }
      }
    }
  }

  lemma SizesUnfold(o: seq<Piece>, j: nat, k: nat)
    requires 1 <= k <= 2 && j + k <= |o|
    ensures Sizes(o[j..j + k]) == if k == 1 then o[j].size else o[j].size + o[j + 1].size
  {
    var x := o[j..j + k];
    assert x[0] == o[j] && (k == 2 ==> x[1..][0] == o[j + 1] && x[1..][1..] == []) && (k == 1 ==> x[1..] == []);
    assert k == 2 ==> Sizes(x[1..]) == o[j + 1].size + Sizes(x[1..][1..]);
  }

  function Leafy(c: Cat, m: Math): Piece { Piece(c, m, m, 1) }

  // The outlines on the way from the typed scraps to the function.

  // The scraps as typed.
  function Stage0(): seq<Piece> {
    [Leafy(Exp, Maybe), Leafy(RawInt, Maybe), Leafy(RawUnorbin, Yes),
     Leafy(Exp, Maybe), Leafy(Semi, Maybe), Leafy(Lbrace, Yes), Leafy(Rbrace, Yes), Leafy(Insert, No)]
  }

  // `int` is int_like.
  function Stage1(): seq<Piece> {
    [Leafy(Exp, Maybe), Leafy(IntLike, Maybe), Leafy(RawUnorbin, Yes),
     Leafy(Exp, Maybe), Leafy(Semi, Maybe), Leafy(Lbrace, Yes), Leafy(Rbrace, Yes), Leafy(Insert, No)]
  }

  // `f`, before a declaration, heads a function.
  function Stage2(): seq<Piece> {
    [Leafy(FnDecl, No), Leafy(IntLike, Maybe), Leafy(RawUnorbin, Yes),
     Leafy(Exp, Maybe), Leafy(Semi, Maybe), Leafy(Lbrace, Yes), Leafy(Rbrace, Yes), Leafy(Insert, No)]
  }

  // The asterisk is an operator.
  function Stage3(): seq<Piece> {
    [Leafy(FnDecl, No), Leafy(IntLike, Maybe), Leafy(Unorbinop, Yes),
     Leafy(Exp, Maybe), Leafy(Semi, Maybe), Leafy(Lbrace, Yes), Leafy(Rbrace, Yes), Leafy(Insert, No)]
  }

  function Stage4(): seq<Piece> {
    [Leafy(FnDecl, No), Leafy(DeclHead, No), Leafy(Unorbinop, Yes),
     Leafy(Exp, Maybe), Leafy(Semi, Maybe), Leafy(Lbrace, Yes), Leafy(Rbrace, Yes), Leafy(Insert, No)]
  }

  // The declaration head ends in math.
  function Stage5(): seq<Piece> {
    [Leafy(FnDecl, No), Piece(DeclHead, No, Yes, 2),
     Leafy(Exp, Maybe), Leafy(Semi, Maybe), Leafy(Lbrace, Yes), Leafy(Rbrace, Yes), Leafy(Insert, No)]
  }

  function Stage6(): seq<Piece> {
    [Leafy(FnDecl, No), Piece(DeclHead, No, Yes, 3), Leafy(Semi, Maybe),
     Leafy(Lbrace, Yes), Leafy(Rbrace, Yes), Leafy(Insert, No)]
  }

  function Stage7(): seq<Piece> {
    [Leafy(FnDecl, No), Piece(Decl, No, Yes, 4),
     Leafy(Lbrace, Yes), Leafy(Rbrace, Yes), Leafy(Insert, No)]
  }

  // So does the heading.
  function Stage8(): seq<Piece> {
    [Piece(FnDecl, No, Yes, 5), Leafy(Lbrace, Yes), Leafy(Rbrace, Yes), Leafy(Insert, No)]
  }

  // The final insert is in the brace.
  function Stage9(): seq<Piece> {
    [Piece(FnDecl, No, Yes, 5), Leafy(Lbrace, Yes), Piece(Rbrace, Yes, No, 2)]
  }

  // Production 52 comes next.
  function Stage10(): seq<Piece> {
    [Piece(FnDecl, No, Yes, 5), Piece(Stmt, Yes, No, 3)]
  }

  // The function.
  function Stage11(): seq<Piece> {
    [DONE]
  }

  const DONE := Piece(Function, No, No, 8)

  /**
   The table takes the outline o at pos to the outline o' at pos', and puts so many outdents in
   math.
   */
  ghost predicate Goes(o: seq<Piece>, pos: nat, f: bool, o': seq<Piece>, pos': nat, gain: nat) {
    && pos < |o| && Padded(View(o, pos))
    && var a := Match(View(o, pos), f);
       (a.Rewrite? ==> a.reserve < 0) && Redrawn(o, pos, a) == o' && Moved(pos, a) == pos' && GainedAt(o, pos, a) == gain
  }

  lemma LeadsGo(o: seq<Piece>, pos: nat, f: bool, o': seq<Piece>, pos': nat, gain: nat, p: Piece, g: nat)
    requires Goes(o, pos, f, o', pos', gain) && Leads(o', pos', f, p, g)
    ensures Leads(o, pos, f, p, gain + g)
  {
    hide Match, Leads, Redrawn, Moved, GainedAt, View;
    LeadsStep(o, pos, f, Match(View(o, pos), f), p, g);
  }

  /** Without inserts the switch on the category decides. */
  lemma TableSwitch(w: Window, f: bool)
    requires Padded(w) && w.c1 != EndArg && w.c1 != Insert && w.c2 != Insert && w.c3 != Insert
    ensures match w.c0
      case Exp => Match(w, f) == MatchExp(w)
      case IntLike => Match(w, f) == MatchIntLike(w)
      case DeclHead => Match(w, f) == MatchDeclHead(w)
      case FnDecl => Match(w, f) == MatchBody(w)
      case Function => Match(w, f) == MatchBody(w)
      case Lbrace => Match(w, f) == MatchLbrace(w)
      case Prelangle => Match(w, f) == MatchAngle(w)
      case RawUnorbin => Match(w, f) == MatchRaw(w)
      case RawInt => Match(w, f) == MatchRawInt(w)
      case _ => true
  {
    hide Sound, MatchExp, MatchIntLike, MatchDeclHead, MatchBody, MatchLbrace, MatchAngle, MatchRaw, MatchRawInt;
    assert Match(w, f) == MatchCategory(w, f);
  }

  lemma Waits(o: seq<Piece>, pos: nat, f: bool)
    requires pos < |o| && Padded(View(o, pos)) && Match(View(o, pos), f) == NoMatch
    ensures Goes(o, pos, f, o, pos + 1, 0)
  {
    hide Sound, Match;
  }

  lemma Relabels(o: seq<Piece>, pos: nat, f: bool, n: nat, c: Cat, d: int)
    requires pos < |o| && Padded(View(o, pos)) && Match(View(o, pos), f) == Relabel(n, 0, c, d)
    ensures Goes(o, pos, f, o[pos := o[pos].(cat := c)], Move(pos, d), 0)
  {
    hide Sound, Match;
  }

  /** A function's heading waits for declarations and for its body. */
  lemma HeadingWaits(o: seq<Piece>, f: bool)
    requires |o| > 1 && o[0].cat == FnDecl && Padded(View(o, 0)) && o[1].cat !in {EndArg, Decl, Stmt, Insert}
    requires CatOf(o, 2) != Insert && CatOf(o, 3) != Insert
    ensures Goes(o, 0, f, o, 1, 0)
  {
    hide Sound, Match;
    TableSwitch(View(o, 0), f);
    Waits(o, 0, f);
  }

  /** An insert at distance two or three goes into the scrap before it. */
  lemma TableInsert(w: Window, f: bool)
    requires Padded(w) && w.c1 != EndArg && w.c1 != Insert
    ensures w.c2 == Insert ==> Match(w, f) == Squash(0, 1, 2, w.c1, -1)
    ensures w.c2 != Insert && w.c3 == Insert ==> Match(w, f) == Squash(0, 2, 2, w.c2, 0)
  {
    hide Sound, MatchCategory;
  }

  lemma Goes0(o: seq<Piece>, f: bool)
    requires o == Stage0()
    ensures Goes(o, 1, f, Stage1(), 0, 0)
  {
    hide Sound, Match, Sizes, Tinges, Goes, Redrawn;
    TableSwitch(View(o, 1), f);
    Relabels(o, 1, f, 109, IntLike, -3);
    assert o[1 := o[1].(cat := IntLike)] == Stage1();
  }

  lemma Goes1(o: seq<Piece>, f: bool)
    requires o == Stage1()
    ensures Goes(o, 0, f, Stage2(), 0, 0)
  {
    hide Sound, Match, Sizes, Tinges, Covers, Steady, Rank, IsBracket;
    TableSwitch(View(o, 0), f);
    TingesUnfold((Maybe, Maybe), Indented(), o, 0);
    SizesUnfold(o, 0, 1);
  }

  lemma Goes2(o: seq<Piece>, f: bool)
    requires o == Stage2()
    ensures Goes(o, 2, f, Stage3(), 0, 0)
  {
    hide Sound, Match, Sizes, Tinges, Goes, Redrawn;
    TableSwitch(View(o, 2), f);
    Relabels(o, 2, f, 106, Unorbinop, -2);
    assert o[2 := o[2].(cat := Unorbinop)] == Stage3();
  }

  lemma Goes3(o: seq<Piece>, f: bool)
    requires o == Stage3()
    ensures Goes(o, 1, f, Stage4(), 0, 0)
  {
    hide Sound, Match, Sizes, Tinges, Covers, Steady, Rank, IsBracket;
    TableSwitch(View(o, 1), f);
    TingesUnfold((Maybe, Maybe), ThenSpace(), o, 1);
    SizesUnfold(o, 1, 1);
  }

  lemma Goes4(o: seq<Piece>, f: bool)
    requires o == Stage4()
    ensures Goes(o, 1, f, Stage5(), 0, 0)
  {
    hide Sound, Match, Sizes, Tinges, Covers, Steady, Rank, IsBracket;
    TableSwitch(View(o, 1), f);
    TingesUnfold((Maybe, Maybe), BracedSecond(), o, 1);
    SizesUnfold(o, 1, 2);
  }

  lemma Goes5(o: seq<Piece>, f: bool)
    requires o == Stage5()
    ensures Goes(o, 1, f, Stage6(), 0, 0)
  {
    hide Sound, Match, Sizes, Tinges, Covers, Steady, Rank, IsBracket;
    TableSwitch(View(o, 1), f);
    TingesUnfold((Maybe, Maybe), Pair(0), o, 1);
    SizesUnfold(o, 1, 2);
  }

  lemma Goes6(o: seq<Piece>, f: bool)
    requires o == Stage6()
    ensures Goes(o, 1, f, Stage7(), 0, 0)
  {
    hide Sound, Match, Sizes, Tinges, Covers, Steady, Rank, IsBracket;
    TableSwitch(View(o, 1), f);
    TingesUnfold((Maybe, Maybe), Pair(0), o, 1);
    SizesUnfold(o, 1, 2);
  }

  lemma Goes7(o: seq<Piece>, f: bool)
    requires o == Stage7()
    ensures Goes(o, 0, f, Stage8(), 0, 0)
  {
    hide Sound, Match, Sizes, Tinges, Covers, Steady, Rank, IsBracket;
    TableSwitch(View(o, 0), f);
    assert Match(View(o, 0), f) == Reduce(51, 2, FnDecl, 0, Joined(0, Force));
    TingesUnfold((Maybe, Maybe), Joined(0, Force), o, 0);
    SizesUnfold(o, 0, 2);
  }

  lemma Goes8(o: seq<Piece>, f: bool)
    requires o == Stage8()
    ensures Goes(o, 0, f, Stage9(), 0, 0)
  {
    hide Sound, Match, Sizes, Tinges, Covers, Steady, Rank, IsBracket;
    TableInsert(View(o, 0), f);
    TingesUnfold((Maybe, Maybe), Pair(2), o, 0);
    SizesUnfold(o, 2, 2);
  }

  lemma Goes9(o: seq<Piece>, f: bool)
    requires o == Stage9()
    ensures Goes(o, 1, f, Stage10(), 0, 0)
  {
    hide Sound, Match, Sizes, Tinges, Covers, Steady, Rank, IsBracket;
    TableSwitch(View(o, 1), f);
    TingesUnfold((Maybe, Maybe), ThinPair(), o, 1);
    SizesUnfold(o, 1, 2);
  }

  lemma Goes10(o: seq<Piece>, f: bool)
    requires o == Stage10()
    ensures Goes(o, 0, f, Stage11(), 0, 2)
  {
    hide Sound, Match, Sizes, Tinges, Covers, Steady, Rank, IsBracket;
    TableSwitch(View(o, 0), f);
    TingesUnfold((Maybe, Maybe), FN_BODY, o, 0);
    SizesUnfold(o, 0, 2);
  }

  lemma Goes11(o: seq<Piece>, f: bool)
    requires o == Stage11()
    ensures Goes(o, 0, f, o, 1, 0)
  {
    hide Sound, Match, Sizes, Tinges, Covers, Steady, Rank, IsBracket;
    TableSwitch(View(o, 0), f);
  }

  lemma NameWaits(o: seq<Piece>, f: bool)
    requires o == Stage0()
    ensures Goes(o, 0, f, o, 1, 0)
  {
    hide Sound, Match, Goes;
    TableSwitch(View(o, 0), f);
    Waits(o, 0, f);
  }

  lemma TypeWaits(o: seq<Piece>, f: bool)
    requires o == Stage2()
    ensures Goes(o, 1, f, o, 2, 0)
  {
    hide Sound, Match, Goes;
    TableSwitch(View(o, 1), f);
    Waits(o, 1, f);
  }

  lemma HeadingsWait(f: bool)
    ensures Goes(Stage2(), 0, f, Stage2(), 1, 0)
    ensures Goes(Stage3(), 0, f, Stage3(), 1, 0)
    ensures Goes(Stage4(), 0, f, Stage4(), 1, 0)
    ensures Goes(Stage5(), 0, f, Stage5(), 1, 0)
    ensures Goes(Stage6(), 0, f, Stage6(), 1, 0)
    ensures Goes(Stage9(), 0, f, Stage9(), 1, 0)
  {
    hide Goes, Match;
    HeadingWaits(Stage2(), f);
    HeadingWaits(Stage3(), f);
    HeadingWaits(Stage4(), f);
    HeadingWaits(Stage5(), f);
    HeadingWaits(Stage6(), f);
    HeadingWaits(Stage9(), f);
  }

  /** The steps, from the last to the first. */
  lemma OldStyleLeads(f: bool)
    ensures Leads(Stage0(), 0, f, DONE, 2)
  {
    hide Leads, Goes, Stage0, Stage1, Stage2, Stage3, Stage4, Stage5, Stage6, Stage7, Stage8, Stage9, Stage10, Stage11;
    Finished();
    HeadingsWait(f);
    NameWaits(Stage0(), f);
    TypeWaits(Stage2(), f);
    LeadsEnd(DONE, f);
    Goes11(Stage11(), f);
    LeadsGo(Stage11(), 0, f, Stage11(), 1, 0, DONE, 0);
    Goes10(Stage10(), f);
    LeadsGo(Stage10(), 0, f, Stage11(), 0, 2, DONE, 0);
    Goes9(Stage9(), f);
    LeadsGo(Stage9(), 1, f, Stage10(), 0, 0, DONE, 2);
    LeadsGo(Stage9(), 0, f, Stage9(), 1, 0, DONE, 2);
    Goes8(Stage8(), f);
    LeadsGo(Stage8(), 0, f, Stage9(), 0, 0, DONE, 2);
    Goes7(Stage7(), f);
    LeadsGo(Stage7(), 0, f, Stage8(), 0, 0, DONE, 2);
    Goes6(Stage6(), f);
    LeadsGo(Stage6(), 1, f, Stage7(), 0, 0, DONE, 2);
    LeadsGo(Stage6(), 0, f, Stage6(), 1, 0, DONE, 2);
    Goes5(Stage5(), f);
    LeadsGo(Stage5(), 1, f, Stage6(), 0, 0, DONE, 2);
    LeadsGo(Stage5(), 0, f, Stage5(), 1, 0, DONE, 2);
    Goes4(Stage4(), f);
    LeadsGo(Stage4(), 1, f, Stage5(), 0, 0, DONE, 2);
    LeadsGo(Stage4(), 0, f, Stage4(), 1, 0, DONE, 2);
    Goes3(Stage3(), f);
    LeadsGo(Stage3(), 1, f, Stage4(), 0, 0, DONE, 2);
    LeadsGo(Stage3(), 0, f, Stage3(), 1, 0, DONE, 2);
    Goes2(Stage2(), f);
    LeadsGo(Stage2(), 2, f, Stage3(), 0, 0, DONE, 2);
    LeadsGo(Stage2(), 1, f, Stage2(), 2, 0, DONE, 2);
    LeadsGo(Stage2(), 0, f, Stage2(), 1, 0, DONE, 2);
    Goes1(Stage1(), f);
    LeadsGo(Stage1(), 0, f, Stage2(), 0, 0, DONE, 2);
    Goes0(Stage0(), f);
    LeadsGo(Stage0(), 1, f, Stage1(), 0, 0, DONE, 2);
    LeadsGo(Stage0(), 0, f, Stage0(), 1, 0, DONE, 2);
  }

  lemma Finished()
    ensures Stage11() == [DONE]
  {
  }

  lemma FreshOutline(tag: seq<Math>, st: State)
    requires Fresh(tag, st)
    ensures Sealed(st, st.mem.Count())
    ensures forall i :: 0 <= i < |st.scraps| ==>
      Outline(st.mem.Texts(), st.mem.Count(), st.scraps)[i] == Leafy(st.scraps[i].cat, st.scraps[i].left)
  {
    hide FlatText, Content;
    FreshMoves(tag, st);
    forall i | 0 <= i < |st.scraps| ensures |ContentOf(st.mem.Texts(), st.mem.Count(), st.scraps[i])| == 1 {
      LeafContent(st.mem.Texts(), st.mem.Count(), st.scraps[i].trans);
    }
  }

  /** The scraps that `f int *p; {}` gives, as C text of a section. */
  ghost predicate OldStyle(tag: seq<Math>, st: State) {
    && Fresh(tag, st) && |st.scraps| == 8
    && var s := st.scraps;
       && s[0].cat == Exp && s[1].cat == RawInt && s[2].cat == RawUnorbin && s[3].cat == Exp
       && s[4].cat == Semi && s[5].cat == Lbrace && s[6].cat == Rbrace && s[7].cat == Insert
       && s[0].left == s[1].left == s[3].left == s[4].left == Maybe
       && s[2].left == s[5].left == s[6].left == Yes && s[7].left == No
  }

  lemma OldStyleOutline(tag: seq<Math>, st: State)
    requires OldStyle(tag, st)
    ensures Outline(st.mem.Texts(), st.mem.Count(), st.scraps) == Stage0()
  {
    hide Outline, Sealed;
    FreshOutline(tag, st);
  }

  lemma OldStyleApart(tag: seq<Math>, st: State)
    requires OldStyle(tag, st)
    ensures BracketsApart(st.scraps)
  {
    hide Fresh;
    var s := st.scraps;
    assert !IsAngle(s[0].cat) && !IsAngle(s[1].cat) && !IsAngle(s[2].cat) && !IsAngle(s[3].cat);
    assert !IsAngle(s[4].cat) && !IsAngle(s[5].cat) && !IsAngle(s[6].cat) && !IsAngle(s[7].cat);
    NoAngleApart(s);
  }

  lemma NoAngleApart(scraps: seq<Scrap>)
    requires forall i :: 0 <= i < |scraps| ==> !IsAngle(scraps[i].cat)
    ensures BracketsApart(scraps)
  {
  }

  /** Two outdents stand in math in its translation. */
  lemma OldStyleFunction(tag: seq<Math>, st: State, forceLines: bool)
    requires OldStyle(tag, st)
    ensures Reduced(st, forceLines).mem.Frozen()
    ensures FinalInMath(Outdent, Reduced(st, forceLines), st.mem.Count()) == 2
  {
    hide Outline, Reduced, TableGained, FinalInMath, Stage0, BracketsApart, Leads;
    OldStyleOutline(tag, st);
    OldStyleApart(tag, st);
    FreshMoves(tag, st);
    OldStyleLeads(forceLines);
    LeadsAt(Stage0(), 0, forceLines, DONE, 2, st, st.mem.Count());
    TableOutdents(tag, st, forceLines);
  }

  // ----- A comment after a bracket: x < (comment) y -----

  /** The outlines on the way; m is the mathness of the final insert. */
  function Less0(m: Math): seq<Piece> {
    [Leafy(Exp, Maybe), Leafy(Prelangle, Yes), Leafy(Insert, No), Leafy(Exp, Maybe), Leafy(Insert, m)]
  }
  function Less1(m: Math): seq<Piece> {
    [Leafy(Exp, Maybe), Piece(Prelangle, Yes, No, 2), Leafy(Exp, Maybe), Leafy(Insert, m)]
  }
  function Less2(m: Math): seq<Piece> {
    [Leafy(Exp, Maybe), Piece(Prelangle, Yes, No, 2), Piece(Exp, m, m, 2)]
  }
  function Less3(m: Math): seq<Piece> {
    [Leafy(Exp, Maybe), Leafy(Binop, Yes), Piece(Exp, m, m, 2)]
  }

  /** Not by production 84 or 85. */
  ghost predicate Keeps(o: seq<Piece>, pos: nat, f: bool) {
    && Padded(View(o, pos))
    && var a := Match(View(o, pos), f);
       a.Rewrite? ==> a.items != [] && !a.items[0].Angle?
  }

  /** One such step keeps the content. */
  lemma StepKeeps(st: State, base: nat, o: seq<Piece>, pos: nat, f: bool, o': seq<Piece>, pos': nat)
    requires Shows(st, base, o, pos) && Goes(o, pos, f, o', pos', 0) && Keeps(o, pos, f)
    ensures Ready(st) && st.pos < |st.scraps|
    ensures Shows(Step(st, f), base, o', pos') && Reduced(Step(st, f), f) == Reduced(st, f)
    ensures StateContent(Step(st, f), base) == StateContent(st, base)
  {
    hide Match, MatchCategory, Sound, Apply, Outline, View, Redrawn, Moved, ListContent;
    var a := Match(View(o, pos), f);
    StepShows(st, base, o, pos, f, a);
    ApplyContent(st, a, base);
  }

  lemma LessGoes0(o: seq<Piece>, m: Math, f: bool)
    requires o == Less0(m)
    ensures Goes(o, 0, f, Less1(m), 0, 0) && Keeps(o, 0, f)
  {
    hide Sound, Match, Sizes, Tinges, Covers, Steady, Rank, IsBracket;
    TableInsert(View(o, 0), f);
    TingesUnfold((Maybe, Maybe), Pair(1), o, 0);
    SizesUnfold(o, 1, 2);
  }

  lemma LessGoes1(o: seq<Piece>, m: Math, f: bool)
    requires o == Less1(m) && m != Yes
    ensures Goes(o, 0, f, Less2(m), 0, 0) && Keeps(o, 0, f)
  {
    hide Sound, Match, Sizes, Tinges, Covers, Steady, Rank, IsBracket;
    TableInsert(View(o, 0), f);
    TingesUnfold((Maybe, Maybe), Pair(2), o, 0);
    SizesUnfold(o, 2, 2);
  }

  lemma LessWaits(o: seq<Piece>, m: Math, f: bool)
    requires o == Less2(m)
    ensures Goes(o, 0, f, o, 1, 0) && Keeps(o, 0, f)
  {
    hide Sound, Match, Goes;
    TableSwitch(View(o, 0), f);
    Waits(o, 0, f);
  }

  lemma LessGoes2(o: seq<Piece>, m: Math, f: bool)
    requires o == Less2(m)
    ensures Goes(o, 1, f, Less3(m), 0, 0) && Match(View(o, 1), f) == Reduce(84, 1, Binop, -2, [Angle(Ch('<'))])
  {
    hide Sound, Match, Sizes, Tinges, Covers, Steady, Rank, IsBracket;
    TableSwitch(View(o, 1), f);
    TingesUnfold((Maybe, Maybe), [Angle(Ch('<'))], o, 1);
  }

  /** The comment goes into the bracket, and the final insert into the expression. */
  lemma CommentSquashed(st: State, base: nat, m: Math, f: bool) returns (st': State)
    requires Shows(st, base, Less0(m), 0) && m != Yes
    ensures Ready(st) && Shows(st', base, Less2(m), 1) && Reduced(st', f) == Reduced(st, f)
    ensures StateContent(st', base) == StateContent(st, base)
  {
    hide Goes, Keeps, Reduced, Step, StateContent, Shows, Less0, Less1, Less2;
    LessGoes0(Less0(m), m, f);
    LessGoes1(Less1(m), m, f);
    LessWaits(Less2(m), m, f);
    StepKeeps(st, base, Less0(m), 0, f, Less1(m), 0);
    st' := Step(st, f);
    StepKeeps(st', base, Less1(m), 0, f, Less2(m), 0);
    st' := Step(st', f);
    StepKeeps(st', base, Less2(m), 0, f, Less2(m), 1);
    st' := Step(st', f);
  }

  /** What production 84 does to the content of three scraps. */
  lemma BracketContents(st: State, base: nat, m: Math, a: Action, c: seq<Atom>)
    requires Sealed(st, base) && Fires(st, a) && st.pos == 1 && Outline(st.mem.Texts(), base, st.scraps) == Less2(m)
    requires a == Reduce(84, 1, Binop, -2, [Angle(Ch('<'))]) && StateContent(st, base) == c && |c| == 5
    ensures Apply(st, a).mem.Frozen() && StateContent(Apply(st, a), base) == [c[0], Mk(Ch('<')), c[3], c[4]]
  {
    hide Sound, Apply, Outline, ListContent;
    ApplyContent(st, a, base);
    BracketItems(st, a);
    SplitContent(st.mem.Texts(), base, st.scraps, 1, 1);
    ThreeSizes(st.mem.Texts(), base, st.scraps, Less2(m));
  }

  /** Production 84 throws the text of the bracket away, and the comment with it. */
  lemma BracketLost(st: State, base: nat, m: Math, f: bool, c: seq<Atom>) returns (st': State)
    requires Shows(st, base, Less2(m), 1) && StateContent(st, base) == c && |c| == 5
    ensures Ready(st) && Shows(st', base, Less3(m), 0) && Reduced(st', f) == Reduced(st, f)
    ensures StateContent(st', base) == [c[0], Mk(Ch('<')), c[3], c[4]]
  {
    hide Match, MatchCategory, Sound, Apply, Outline, Redrawn, StateContent, Reduced, Ready, View, Moved, Less2, Less3;
    var a := Reduce(84, 1, Binop, -2, [Angle(Ch('<'))]);
    LessGoes2(Less2(m), m, f);
    ShowsReady(st, base, Less2(m), 1);
    StepShows(st, base, Less2(m), 1, f, a);
    st' := Step(st, f);
    ShowsReady(st', base, Less3(m), 0);
    BracketContents(st, base, m, a, c);
    ReducedStep(st, f);
  }

  lemma ReducedStep(st: State, f: bool)
    requires Ready(st) && st.pos < |st.scraps| && Ready(Step(st, f))
    ensures Reduced(Step(st, f), f) == Reduced(st, f)
  {
    hide Step;
  }

  lemma ThreeSizes(texts: seq<seq<Token>>, base: nat, scraps: seq<Scrap>, o: seq<Piece>)
    requires Outline(texts, base, scraps) == o && |o| == 3
    ensures |scraps| == 3
    ensures |ListContent(texts, base, scraps[..1])| == o[0].size && |ListContent(texts, base, scraps[1..2])| == o[1].size
    ensures |ListContent(texts, base, scraps[2..])| == o[2].size
  {
    hide ContentOf;
    assert o[0] == PieceOf(texts, base, scraps[0]) && o[1] == PieceOf(texts, base, scraps[1]);
    assert o[2] == PieceOf(texts, base, scraps[2]);
    assert scraps[..1] == [scraps[0]] && scraps[1..2] == [scraps[1]] && scraps[2..] == [scraps[2]];
    ListContentOne(texts, base, scraps[0]);
    ListContentOne(texts, base, scraps[1]);
    ListContentOne(texts, base, scraps[2]);
  }

  /** The two expressions and the operator become one expression. */
  lemma LessGoes3(o: seq<Piece>, m: Math, f: bool) returns (p: Piece)
    requires o == Less3(m)
    ensures Goes(o, 0, f, [p], 0, 0) && Keeps(o, 0, f) && Goes([p], 0, f, [p], 1, 0) && Keeps([p], 0, f)
  {
    hide Sound, Match, Sizes, Tinges, Covers, Steady, Rank, IsBracket;
    TableSwitch(View(o, 0), f);
    var o' := Redrawn(o, 0, Match(View(o, 0), f));
    p := o'[0];
    assert o' == [p];
    TableSwitch(View(o', 0), f);
  }

  /** The rest of the reduction changes nothing. */
  lemma CommentGone(st: State, base: nat, m: Math, f: bool)
    requires Shows(st, base, Less3(m), 0)
    ensures Ready(st) && Sealed(Reduced(st, f), base)
    ensures StateContent(Reduced(st, f), base) == StateContent(st, base)
  {
    hide Goes, Keeps, Step, StateContent, Shows, Reduced, Sealed, Less3;
    var p := LessGoes3(Less3(m), m, f);
    StepKeeps(st, base, Less3(m), 0, f, [p], 0);
    var st' := Step(st, f);
    StepKeeps(st', base, [p], 0, f, [p], 1);
    ReducedEnd(Step(st', f), base, [p], f);
  }

  lemma ReducedEnd(st: State, base: nat, o: seq<Piece>, f: bool)
    requires Shows(st, base, o, 1) && |o| == 1
    ensures Ready(st) && Reduced(st, f) == st && Sealed(st, base)
  {
  }

  /** The scraps of `x < (comment) y`, as part of a section or between bars. */
  ghost predicate CommentAfterLess(tag: seq<Math>, st: State) {
    && Fresh(tag, st) && |st.scraps| == 5
    && var s := st.scraps;
       && s[0].cat == Exp && s[1].cat == Prelangle && s[2].cat == Insert && s[3].cat == Exp && s[4].cat == Insert
       && s[0].left == s[3].left == Maybe && s[1].left == Yes && s[2].left == No && s[4].left != Yes
  }

  /** Its translation has everything but the comment. */
  lemma CommentAfterLessIsLost(tag: seq<Math>, st: State, f: bool)
    requires CommentAfterLess(tag, st)
    ensures var end := Reduced(st, f);
      && end.mem.Frozen() && end.mem.Append(Finish(end.scraps, |end.scraps|)).Frozen()
      && Content(FlatText(end.mem.Append(Finish(end.scraps, |end.scraps|)).Texts(), st.mem.Count(), end.mem.Count()))
         == [Leaf(st.scraps[0].trans), Mk(Ch('<')), Leaf(st.scraps[3].trans), Leaf(st.scraps[4].trans)]
  {
    hide Outline, Reduced, Sealed, Content, FlatText, ListContent;
    var base, m := st.mem.Count(), st.scraps[4].left;
    FreshOutline(tag, st);
    assert Outline(st.mem.Texts(), base, st.scraps) == Less0(m);
    LeavesContent(st.mem.Texts(), base, st.scraps);
    var st2 := CommentSquashed(st, base, m, f);
    var st3 := BracketLost(st2, base, m, f, Leaves(st.scraps));
    CommentGone(st3, base, m, f);
    FinalContent(Reduced(st, f), base);
  }
}
