/**
 Steps of the reduction in C statements: which productions apply to what is left of the place the
 reducer has come to, and what they make of it.
 */
module ScrapSteps {
  import opened ScrapGrammar
  import opened ScrapText
  import opened ScrapRewrite
  import opened ScrapDocs
  import opened ScrapSeen
  import opened ScrapInserts

  type Tok = seq<Atom>

  function Join(parts: seq<Tok>): Tok {
    if parts == [] then [] else parts[0] + Join(parts[1..])
  }

  function M(m: Mark): Tok {
    [Mk(m)]
  }

  function Parts(items: seq<Item>, run: seq<Seg>): (r: seq<Tok>)
    ensures |r| == |items|
  {
    seq(|items|, i requires 0 <= i < |items| => Shows1(items[i], run, 0))
  }

  lemma {:induction false} ShowsParts(items: seq<Item>, i: nat, run: seq<Seg>)
    requires i <= |items|
    ensures ShowsFrom(items, i, run, 0) == Join(Parts(items, run)[i..])
    decreases |items| - i
  {
    hide Shows1;
    if i < |items| {
      ShowsParts(items, i + 1, run);
      assert Parts(items, run)[i..][1..] == Parts(items, run)[i + 1..];
    }
  }

  // ----- The table, for the categories of statements -----

  /** Production n applies here. */
  predicate Applies(n: nat, w: Window) {
    match n
    case 3 => w.c0 == Exp && w.c1 == Binop && w.c2 == Exp
    case 6 => w.c0 == Exp && w.c1 == Semi
    case 11 => w.c0 == Lpar && w.c1 == Exp && w.c2 == Rpar
    case 54 => w.c0 == Lbrace && w.c1 == Rbrace
    case 55 => w.c0 == Lbrace && w.c1 == Stmt && w.c2 == Rbrace
    case 57 => w.c0 == IfLike && w.c1 == Exp
    case 58 => w.c0 == ForLike && w.c1 == Exp
    case 59 => w.c0 == ElseLike && w.c1 == Lbrace
    case 60 => w.c0 == ElseLike && w.c1 == Stmt
    case 61 => w.c0 == ElseHead && w.c1 == Stmt
    case 62 => w.c0 == IfClause && w.c1 == Lbrace
    case 63 => w.c0 == IfClause && w.c1 == Stmt && w.c2 == ElseLike && w.c3 == IfLike
    case 64 => w.c0 == IfClause && w.c1 == Stmt && w.c2 == ElseLike && w.c3 != IfLike
    case 65 => w.c0 == IfClause && w.c1 == Stmt && w.c2 != ElseLike
    case 66 => w.c0 == IfHead && w.c1 == Stmt && w.c2 == ElseLike && w.c3 == IfLike
    case 67 => w.c0 == IfHead && w.c1 == Stmt && w.c2 == ElseLike && w.c3 != IfLike
    case 68 => w.c0 == IfHead && w.c1 == Stmt && w.c2 != ElseLike
    case 69 => w.c0 == DoLike && w.c1 == Stmt && w.c2 == ElseLike && w.c3 == Semi
    case 76 => w.c0 == Stmt && w.c1 == Stmt
    case 104 => w.c0 == RawRpar && w.c1 != ConstLike
    case _ => false
  }

  /** How many scraps it combines. */
  function Length(n: nat): nat {
    match n
    case 3 | 11 | 55 | 64 | 67 => 3
    case 63 | 66 | 69 => 4
    case 59 | 62 | 65 | 68 | 104 => 1
    case _ => 2
  }

  /** Where the reducer goes on. */
  function Back(n: nat): int {
    match n
    case 3 | 11 | 58 => -2
    case 6 | 54 | 55 | 60 | 61 | 69 | 76 => -1
    case 104 => -3
    case _ => 0
  }

  function Result(n: nat): Cat {
    match n
    case 3 | 11 => Exp
    case 57 => IfClause
    case 58 | 64 | 65 | 67 => ElseLike
    case 59 | 68 => ElseHead
    case 62 => IfHead
    case 63 | 66 => IfLike
    case 104 => Rpar
    case _ => Stmt
  }

  /** What is shown of the new scrap. */
  function Pieces(n: nat, f: bool, x: seq<Seg>): seq<Tok>
    requires |x| == Length(n)
  {
    match n
    case 3 | 11 => [x[0].seen, x[1].seen, x[2].seen]
    case 6 => [x[0].seen, x[1].seen]
    case 54 => [x[0].seen, M(Ch('\\')), M(Ch(',')), x[1].seen]
    case 55 => [M(Force), x[0].seen, M(Indent), M(Force), x[1].seen, M(Force), M(Backup), x[2].seen, M(Outdent), M(Force)]
    case 57 | 58 => [x[0].seen, M(Ch(' ')), x[1].seen]
    case 60 => [M(Force), x[0].seen, M(Indent), M(BreakSpace), x[1].seen, M(Outdent), M(Force)]
    case 61 => [M(Force), x[0].seen, M(BreakSpace), M(Noop), M(Cancel), x[1].seen, M(Force)]
    case 63 => [M(Force), x[0].seen, M(Indent), M(BreakSpace), x[1].seen, M(Outdent), M(Force), x[2].seen, M(Ch(' ')), x[3].seen]
    case 64 => [M(Force), x[0].seen, M(Indent), M(BreakSpace), x[1].seen, M(Outdent), M(Force), x[2].seen]
    case 66 => [M(Force), x[0].seen, M(BreakSpace), M(Noop), M(Cancel), x[1].seen, M(Force), x[2].seen, M(Ch(' ')), x[3].seen]
    case 67 => [M(Force), x[0].seen, M(BreakSpace), M(Noop), M(Cancel), x[1].seen, M(Force), x[2].seen]
    case 69 => [x[0].seen, M(BreakSpace), M(Noop), M(Cancel), x[1].seen, M(Cancel), M(Noop), M(BreakSpace), x[2].seen, x[3].seen]
    case 76 => [x[0].seen, M(if f then Force else BreakSpace), x[1].seen]
    case _ => []
  }

  function ItemsOf(n: nat, f: bool): seq<Item> {
    match n
    case 3 | 11 => Triple(0)
    case 6 => Pair(0)
    case 54 => ThinPair()
    case 55 => Block()
    case 57 | 58 => Joined(0, Ch(' '))
    case 60 => Clause()
    case 61 => BracedClause()
    case 63 => ClauseElseIf()
    case 64 => ClauseElse()
    case 66 => BracedElseIf()
    case 67 => BracedElse()
    case 69 => DoWhile()
    case 76 => Joined(0, if f then Force else BreakSpace)
    case _ => Alone()
  }

  function Act(n: nat, f: bool): Action {
    if Length(n) == 1 then Relabel(n, 0, Result(n), Back(n)) else Rewrite(n, 0, Length(n), Result(n), Back(n), ItemsOf(n, f), -1)
  }

  lemma {:induction false} ItemsCover(n: nat, f: bool)
    requires Length(n) != 1 && exists w :: Applies(n, w)
    ensures Covers(ItemsOf(n, f), 0, 0, Length(n))
  {
    hide Covers, Steady, Triple, Pair, ThinPair, Block, Joined, Clause, BracedClause, ClauseElseIf, ClauseElse, BracedElseIf,
      BracedElse, DoWhile, Alone;
  }

  lemma {:induction false} Act1(n: nat, w: Window, f: bool)
    requires Padded(w) && Applies(n, w) && n == 3
    ensures MatchCategory(w, f) == Act(n, f)
  {
    hide Sound, Covers, Steady, Padded, Triple;
  }

  lemma {:induction false} Act2(n: nat, w: Window, f: bool)
    requires Padded(w) && Applies(n, w) && n == 6
    ensures MatchCategory(w, f) == Act(n, f)
  {
    hide Sound, Covers, Steady, Padded, Pair;
  }

  lemma {:induction false} Act3(n: nat, w: Window, f: bool)
    requires Padded(w) && Applies(n, w) && n == 11
    ensures MatchCategory(w, f) == Act(n, f)
  {
    hide Sound, Covers, Steady, Padded, Triple;
  }

  lemma {:induction false} Act4(n: nat, w: Window, f: bool)
    requires Padded(w) && Applies(n, w) && n == 54
    ensures MatchCategory(w, f) == Act(n, f)
  {
    hide Sound, Covers, Steady, Padded, ThinPair, Block;
  }

  lemma {:induction false} Act5(n: nat, w: Window, f: bool)
    requires Padded(w) && Applies(n, w) && n == 55
    ensures MatchCategory(w, f) == Act(n, f)
  {
    hide Sound, Covers, Steady, Padded, ThinPair, Block;
  }

  lemma {:induction false} Act6(n: nat, w: Window, f: bool)
    requires Padded(w) && Applies(n, w) && n in {57, 58}
    ensures MatchCategory(w, f) == Act(n, f)
  {
    hide Sound, Covers, Steady, Padded, Joined;
  }

  lemma {:induction false} Act7(n: nat, w: Window, f: bool)
    requires Padded(w) && Applies(n, w) && n in {59, 60}
    ensures MatchCategory(w, f) == Act(n, f)
  {
    hide Sound, Covers, Steady, Padded, Clause;
  }

  lemma {:induction false} Act8(n: nat, w: Window, f: bool)
    requires Padded(w) && Applies(n, w) && n == 61
    ensures MatchCategory(w, f) == Act(n, f)
  {
    hide Sound, Covers, Steady, Padded, BracedClause, MatchIfClause, MatchIfHead;
  }

  lemma {:induction false} Act9(n: nat, w: Window, f: bool)
    requires Padded(w) && Applies(n, w) && n in {62, 65}
    ensures MatchCategory(w, f) == Act(n, f)
  {
    hide Sound, Covers, Steady, Padded, ClauseElseIf, ClauseElse, BracedClause, MatchIfHead;
  }

  lemma {:induction false} Act10(n: nat, w: Window, f: bool)
    requires Padded(w) && Applies(n, w) && n == 63
    ensures MatchCategory(w, f) == Act(n, f)
  {
    hide Sound, Covers, Steady, Padded, ClauseElseIf, ClauseElse, BracedClause, MatchIfHead;
  }

  lemma {:induction false} Act11(n: nat, w: Window, f: bool)
    requires Padded(w) && Applies(n, w) && n == 64
    ensures MatchCategory(w, f) == Act(n, f)
  {
    hide Sound, Covers, Steady, Padded, ClauseElseIf, ClauseElse, BracedClause, MatchIfHead;
  }

  lemma {:induction false} Act12(n: nat, w: Window, f: bool)
    requires Padded(w) && Applies(n, w) && n == 66
    ensures MatchCategory(w, f) == Act(n, f)
  {
    hide Sound, Covers, Steady, Padded, BracedElseIf, BracedElse, BracedClause, MatchIfClause;
  }

  lemma {:induction false} Act13(n: nat, w: Window, f: bool)
    requires Padded(w) && Applies(n, w) && n == 67
    ensures MatchCategory(w, f) == Act(n, f)
  {
    hide Sound, Covers, Steady, Padded, BracedElseIf, BracedElse, BracedClause, MatchIfClause;
  }

  lemma {:induction false} Act14(n: nat, w: Window, f: bool)
    requires Padded(w) && Applies(n, w) && n == 68
    ensures MatchCategory(w, f) == Act(n, f)
  {
    hide Sound, Covers, Steady, Padded, BracedElseIf, BracedElse, BracedClause, MatchIfClause;
  }

  lemma {:induction false} Act15(n: nat, w: Window, f: bool)
    requires Padded(w) && Applies(n, w) && n == 69
    ensures MatchCategory(w, f) == Act(n, f)
  {
    hide Sound, Covers, Steady, Padded, DoWhile;
  }

  lemma {:induction false} Act16(n: nat, w: Window, f: bool)
    requires Padded(w) && Applies(n, w) && n == 76
    ensures MatchCategory(w, f) == Act(n, f)
  {
    hide Sound, Covers, Steady, Padded, Joined;
  }

  lemma {:induction false} Act17(n: nat, w: Window, f: bool)
    requires Padded(w) && Applies(n, w) && n == 104
    ensures MatchCategory(w, f) == Act(n, f)
  {
    hide Sound, Covers, Steady, Padded, Joined;
  }

  lemma {:induction false} Acts(n: nat, w: Window, f: bool)
    requires Padded(w) && Applies(n, w)
    ensures MatchCategory(w, f) == Act(n, f)
  {
    hide MatchCategory, Act, Sound;
    if n in {3} { Act1(n, w, f); }
    else if n in {6} { Act2(n, w, f); }
    else if n in {11} { Act3(n, w, f); }
    else if n in {54} { Act4(n, w, f); }
    else if n in {55} { Act5(n, w, f); }
    else if n in {57, 58} { Act6(n, w, f); }
    else if n in {59, 60} { Act7(n, w, f); }
    else if n in {61} { Act8(n, w, f); }
    else if n in {62, 65} { Act9(n, w, f); }
    else if n in {63} { Act10(n, w, f); }
    else if n in {64} { Act11(n, w, f); }
    else if n in {66} { Act12(n, w, f); }
    else if n in {67} { Act13(n, w, f); }
    else if n in {68} { Act14(n, w, f); }
    else if n in {69} { Act15(n, w, f); }
    else if n in {76} { Act16(n, w, f); }
    else { Act17(n, w, f); }
  }

  lemma {:induction false} Pieces1(n: nat, f: bool, x: seq<Seg>)
    requires n in {3, 6, 11} && |x| == Length(n)
    ensures Parts(ItemsOf(n, f), x) == Pieces(n, f, x)
  {
    hide Covers, Steady;
  }

  lemma {:induction false} Pieces2(n: nat, f: bool, x: seq<Seg>)
    requires n in {54, 57, 58, 76} && |x| == Length(n)
    ensures Parts(ItemsOf(n, f), x) == Pieces(n, f, x)
  {
    hide Covers, Steady;
  }

  lemma {:induction false} Pieces3(n: nat, f: bool, x: seq<Seg>)
    requires n == 55 && |x| == Length(n)
    ensures Parts(ItemsOf(n, f), x) == Pieces(n, f, x)
  {
    hide Covers, Steady;
  }

  lemma {:induction false} Pieces4(n: nat, f: bool, x: seq<Seg>)
    requires n in {60, 61} && |x| == Length(n)
    ensures Parts(ItemsOf(n, f), x) == Pieces(n, f, x)
  {
    hide Covers, Steady;
  }

  lemma {:induction false} Pieces5(n: nat, f: bool, x: seq<Seg>)
    requires n == 63 && |x| == Length(n)
    ensures Parts(ItemsOf(n, f), x) == Pieces(n, f, x)
  {
    hide Covers, Steady;
  }

  lemma {:induction false} Pieces6(n: nat, f: bool, x: seq<Seg>)
    requires n == 64 && |x| == Length(n)
    ensures Parts(ItemsOf(n, f), x) == Pieces(n, f, x)
  {
    hide Covers, Steady;
  }

  lemma {:induction false} Pieces7(n: nat, f: bool, x: seq<Seg>)
    requires n == 66 && |x| == Length(n)
    ensures Parts(ItemsOf(n, f), x) == Pieces(n, f, x)
  {
    hide Covers, Steady;
  }

  lemma {:induction false} Pieces8(n: nat, f: bool, x: seq<Seg>)
    requires n == 67 && |x| == Length(n)
    ensures Parts(ItemsOf(n, f), x) == Pieces(n, f, x)
  {
    hide Covers, Steady;
  }

  lemma {:induction false} Pieces9(n: nat, f: bool, x: seq<Seg>)
    requires n == 69 && |x| == Length(n)
    ensures Parts(ItemsOf(n, f), x) == Pieces(n, f, x)
  {
    hide Covers, Steady;
  }

  lemma {:induction false} PiecesShown(n: nat, f: bool, w: Window, x: seq<Seg>)
    requires Applies(n, w) && |x| == Length(n) > 1
    ensures Parts(ItemsOf(n, f), x) == Pieces(n, f, x)
  {
    hide Parts, ItemsOf, Pieces;
    if n in {3, 6, 11} { Pieces1(n, f, x); }
    else if n in {54, 57, 58, 76} { Pieces2(n, f, x); }
    else if n in {55} { Pieces3(n, f, x); }
    else if n in {60, 61} { Pieces4(n, f, x); }
    else if n in {63} { Pieces5(n, f, x); }
    else if n in {64} { Pieces6(n, f, x); }
    else if n in {66} { Pieces7(n, f, x); }
    else if n in {67} { Pieces8(n, f, x); }
    else { Pieces9(n, f, x); }
  }

  /** No production applies. */
  predicate Still(w: Window) {
    match w.c0
    case Lbrace => w.c1 !in {Rbrace, Decl, Function} && (w.c1 == Stmt ==> w.c2 != Rbrace) && (w.c1 == Exp ==> w.c2 !in {Rbrace, Comma})
    case Stmt => w.c1 !in {Stmt, Decl, Function}
    case IfClause => w.c1 !in {Lbrace, Stmt}
    case ElseLike => w.c1 !in {Lbrace, Stmt}
    case IfHead => w.c1 !in {Stmt, Exp}
    case ElseHead => w.c1 !in {Stmt, Exp}
    case DoLike => !(w.c1 == Stmt && w.c2 == ElseLike && w.c3 == Semi)
    case IfLike => w.c1 != Exp
    case ForLike => w.c1 != Exp
    case Lpar => w.c1 == Exp && w.c2 !in {Rpar, Comma}
    case Exp => w.c1 == RawRpar
    case _ => false
  }

  lemma {:induction false} Still1(w: Window, f: bool)
    requires Padded(w) && Still(w) && w.c0 in {Lbrace, Stmt}
    ensures MatchCategory(w, f) == NoMatch
  {
    hide Sound, Covers, Steady;
  }

  lemma {:induction false} Still2(w: Window, f: bool)
    requires Padded(w) && Still(w) && w.c0 in {IfClause, ElseLike}
    ensures MatchCategory(w, f) == NoMatch
  {
    hide Sound, Covers, Steady;
  }

  lemma {:induction false} Still3(w: Window, f: bool)
    requires Padded(w) && Still(w) && w.c0 in {IfHead, ElseHead}
    ensures MatchCategory(w, f) == NoMatch
  {
    hide Sound, Covers, Steady;
  }

  lemma {:induction false} Still4(w: Window, f: bool)
    requires Padded(w) && Still(w) && w.c0 in {DoLike, IfLike, ForLike}
    ensures MatchCategory(w, f) == NoMatch
  {
    hide Sound, Covers, Steady;
  }

  lemma {:induction false} Still5(w: Window, f: bool)
    requires Padded(w) && Still(w) && w.c0 in {Lpar, Exp}
    ensures MatchCategory(w, f) == NoMatch
  {
    hide Sound, Covers, Steady;
  }

  lemma {:induction false} StillIs(w: Window, f: bool)
    requires Padded(w) && Still(w)
    ensures MatchCategory(w, f) == NoMatch
  {
    hide MatchCategory, Sound;
    if w.c0 in {Lbrace, Stmt} { Still1(w, f); }
    else if w.c0 in {IfClause, ElseLike} { Still2(w, f); }
    else if w.c0 in {IfHead, ElseHead} { Still3(w, f); }
    else if w.c0 in {DoLike, IfLike, ForLike} { Still4(w, f); }
    else { Still5(w, f); }
  }

  function Pick(run: seq<Seg>, rest: seq<Seg>, i: nat): Cat {
    if i < |run| then run[i].cat else CatOf(rest, i - |run|)
  }

  lemma {:induction false} ViewRun(run: seq<Seg>, rest: seq<Seg>)
    ensures View(run + rest, 0) == Window(Pick(run, rest, 0), Pick(run, rest, 1), Pick(run, rest, 2), Pick(run, rest, 3))
  {
    forall i: nat | i < 4 ensures CatOf(run + rest, i) == Pick(run, rest, i) {
    }
  }

  // ----- At a place in the list -----

  /** Where the reduction is to end, and the insert that is still to come. */
  datatype Goal = Goal(f: bool, p: Seg, b: seq<Atom>)

  /** The reduction goes on well from d beyond the first scrap of right. */
  ghost predicate GoodFrom(left: seq<Seg>, right: seq<Seg>, d: int, g: Goal) {
    Clean(left + right) && Good(left + right, Move(|left|, d), g.f, g.p, g.b)
  }

  /** It ends well; what the insert does is left open. */
  ghost predicate EndsFrom(left: seq<Seg>, right: seq<Seg>, d: int, g: Goal) {
    Clean(left + right) && Ends(left + right, Move(|left|, d), g.f, g.p)
  }

  lemma {:induction false} GoodEndsFrom(left: seq<Seg>, right: seq<Seg>, d: int, g: Goal)
    requires GoodFrom(left, right, d, g)
    ensures EndsFrom(left, right, d, g)
  {
    hide Ends, Clean;
  }

  /** The same place, divided otherwise. */
  lemma {:induction false} SamePlace(left: seq<Seg>, right: seq<Seg>, d: int, left': seq<Seg>, right': seq<Seg>, d': int, g: Goal)
    requires GoodFrom(left, right, d, g) && left + right == left' + right' && Move(|left|, d) == Move(|left'|, d')
    ensures GoodFrom(left', right', d', g)
  {
    hide Good, Clean;
  }

  lemma {:induction false} Quiet(left: seq<Seg>, x: Seg, rest: seq<Seg>, g: Goal)
    requires Still(View([x] + rest, 0)) && GoodFrom(left + [x], rest, 0, g)
    ensures GoodFrom(left, [x] + rest, 0, g)
  {
    hide Match, MatchCategory, Still, Good, Padded, View, Clean;
    assert left + [x] + rest == left + ([x] + rest);
    CleanConcat(left, [x] + rest);
    CleanSwitch([x] + rest, 0, g.f);
    StillIs(View([x] + rest, 0), g.f);
    GoodQuiet(left, x, rest, g.f, g.p, g.b);
  }

  /** Production n makes one scrap of run. */
  function Made(n: nat, run: seq<Seg>, f: bool): Seg
    requires |run| == Length(n)
  {
    Seg(Result(n), Join(Pieces(n, f, run)))
  }

  lemma {:induction false} CleanInstead(left: seq<Seg>, x: seq<Seg>, run: seq<Seg>, rest: seq<Seg>)
    requires Clean(left + (x + rest)) && Clean(run)
    ensures Clean(left + (run + rest)) && Clean(run + rest)
  {
    CleanConcat(left, x + rest);
    CleanConcat(x, rest);
    CleanConcat(run, rest);
    CleanConcat(left, run + rest);
  }

  lemma {:induction false} FiresFrom(n: nat, left: seq<Seg>, run: seq<Seg>, rest: seq<Seg>, g: Goal)
    requires Clean(run) && |run| == Length(n) > 1 && Applies(n, View(run + rest, 0))
    requires EndsFrom(left, [Made(n, run, g.f)] + rest, Back(n), g)
    ensures EndsFrom(left, run + rest, 0, g)
    ensures |run| + |rest| < 4 || (Enough(left, rest, Back(n)) && GoodFrom(left, [Made(n, run, g.f)] + rest, Back(n), g)) ==>
      GoodFrom(left, run + rest, 0, g)
  {
    hide Match, MatchCategory, Applies, Good, Ends, Padded, View, Clean, Pieces, Join, Covers, Parts, ItemsOf, ShowsFrom, Result, Enough;
    var w, new_ := View(run + rest, 0), Made(n, run, g.f);
    CleanInstead(left, [new_], run, rest);
    CleanSwitch(run + rest, 0, g.f);
    Acts(n, w, g.f);
    ItemsCover(n, g.f);
    PiecesShown(n, g.f, w, run);
    ShowsParts(ItemsOf(n, g.f), 0, run);
    assert Parts(ItemsOf(n, g.f), run)[0..] == Parts(ItemsOf(n, g.f), run);
    BackIs(n);
    GoodReduces(left, run, rest, g.f, Act(n, g.f), new_, g.p, g.b);
  }

  lemma {:induction false} Fire(n: nat, left: seq<Seg>, run: seq<Seg>, rest: seq<Seg>, g: Goal)
    requires Clean(run) && |run| == Length(n) > 1 && Applies(n, View(run + rest, 0))
    requires |run| + |rest| >= 4 ==> |rest| >= 2 || (|rest| == 1 && Back(n) < 0)
    requires GoodFrom(left, [Made(n, run, g.f)] + rest, Back(n), g)
    ensures GoodFrom(left, run + rest, 0, g)
  {
    hide GoodFrom, EndsFrom, Applies, View, Clean, Made, Length, Back;
    BackIs(n);
    GoodEndsFrom(left, [Made(n, run, g.f)] + rest, Back(n), g);
    FiresFrom(n, left, run, rest, g);
  }

  lemma {:induction false} BackIs(n: nat)
    ensures -3 <= Back(n) <= 0 && (Length(n) > 1 ==> -2 <= Back(n))
  {
  }

  /** Production n gives x another category. */
  lemma {:induction false} Change(n: nat, left: seq<Seg>, x: Seg, rest: seq<Seg>, g: Goal)
    requires CleanCat(x.cat) && Length(n) == 1 && Applies(n, View([x] + rest, 0))
    requires GoodFrom(left, [x.(cat := Result(n))] + rest, Back(n), g)
    ensures GoodFrom(left, [x] + rest, 0, g)
  {
    hide Match, MatchCategory, Applies, Good, Padded, View, Clean, Result;
    Few([x]);
    CleanInstead(left, [x.(cat := Result(n))], [x], rest);
    CleanSwitch([x] + rest, 0, g.f);
    Acts(n, View([x] + rest, 0), g.f);
    BackIs(n);
    GoodRelabels(left, x, rest, g.f, Act(n, g.f), g.p, g.b);
  }

  lemma {:induction false} Few(x: seq<Seg>)
    requires |x| <= 4
    requires (|x| > 0 ==> CleanCat(x[0].cat)) && (|x| > 1 ==> CleanCat(x[1].cat)) && (|x| > 2 ==> CleanCat(x[2].cat))
    requires |x| > 3 ==> CleanCat(x[3].cat)
    ensures Clean(x)
  {
  }

  // ----- What is left behind -----

  /** Scraps that wait for a statement or a condition. */
  predicate Waits(c: Cat) {
    c in {Lbrace, Stmt, IfClause, IfHead, ElseLike, ElseHead, DoLike, IfLike, ForLike, Lpar}
  }

  /** The scrap behind it keeps it waiting. */
  predicate Holds(c: Cat, next: Cat) {
    && (Waits(next) || next == Exp)
    && match c
       case Lbrace | DoLike => true
       case Stmt => next != Stmt
       case IfClause | ElseLike => next != Lbrace && next != Stmt
       case IfHead | ElseHead => next == Lbrace
       case IfLike | ForLike => next == Lpar
       case Lpar => next == Exp
       case _ => false
  }

  predicate Pending(left: seq<Seg>) {
    && (forall i :: 0 <= i < |left| ==> Waits(left[i].cat))
    && (forall i :: 0 < i < |left| ==> Holds(left[i - 1].cat, left[i].cat))
  }

  /** What is behind the pending scraps keeps them waiting. */
  predicate Fits(left: seq<Seg>, x: seq<Seg>) {
    && x != [] && (Waits(x[0].cat) || x[0].cat == Exp)
    && (left != [] ==> Holds(left[|left| - 1].cat, x[0].cat))
    && (left != [] && left[|left| - 1].cat == Lbrace && x[0].cat == Stmt ==> CatOf(x, 1) != Rbrace)
    && (left != [] && left[|left| - 1].cat == DoLike && x[0].cat == Stmt ==> CatOf(x, 1) != ElseLike)
    && (x[0].cat == Exp ==> CatOf(x, 1) !in {Rbrace, Comma, Rpar})
    && (x[0].cat == ElseLike ==> CatOf(x, 1) != Semi)
  }

  lemma {:induction false} StillHeld(w: Window)
    requires Waits(w.c0) && Holds(w.c0, w.c1)
    requires w.c0 == Lbrace && w.c1 == Stmt ==> w.c2 != Rbrace
    requires w.c0 == DoLike && w.c1 == Stmt && w.c2 == ElseLike ==> w.c3 != Semi
    requires w.c1 == Exp ==> w.c2 !in {Rbrace, Comma, Rpar}
    ensures Still(w)
  {
  }

  lemma {:induction false} ViewAt(left: seq<Seg>, x: seq<Seg>, i: nat)
    ensures View(left + x, i) == Window(Pick(left, x, i), Pick(left, x, i + 1), Pick(left, x, i + 2), Pick(left, x, i + 3))
  {
    forall j: nat | i <= j < i + 4 ensures CatOf(left + x, j) == Pick(left, x, j) {
    }
  }

  lemma {:induction false} StillThere(left: seq<Seg>, x: seq<Seg>, i: nat)
    requires Pending(left) && Fits(left, x) && i < |left|
    ensures Still(View(left + x, i))
  {
    hide Pending, Still, Holds, Waits, View;
    ViewAt(left, x, i);
    PendingAt(left, i);
    NotPending(x[0].cat);
    if i + 1 < |left| { StillInside(left, x, i); }
    StillHeld(View(left + x, i));
  }

  lemma {:induction false} StillInside(left: seq<Seg>, x: seq<Seg>, i: nat)
    requires Pending(left) && Fits(left, x) && i + 1 < |left|
    ensures Waits(Pick(left, x, i + 1)) && Pick(left, x, i + 1) != Exp
    ensures Pick(left, x, i + 2) !in {Rbrace, Semi}
    ensures Pick(left, x, i + 2) == ElseLike ==> Pick(left, x, i + 3) != Semi
  {
    hide Pending, Holds, Waits;
    PendingAt(left, i + 1);
    NotPending(left[i + 1].cat);
    NotPending(x[0].cat);
    if i + 2 < |left| { PendingAt(left, i + 2); NotPending(left[i + 2].cat); }
    if i + 3 < |left| { PendingAt(left, i + 3); NotPending(left[i + 3].cat); }
  }

  lemma {:induction false} NotPending(c: Cat)
    ensures Waits(c) ==> c !in {Rbrace, Semi, Comma, Rpar, Exp}
  {
  }

  lemma {:induction false} PendingAt(left: seq<Seg>, i: nat)
    requires Pending(left) && i < |left|
    ensures Waits(left[i].cat) && (i + 1 < |left| ==> Holds(left[i].cat, left[i + 1].cat))
  {
    if i + 1 < |left| {
      assert Holds(left[i + 1 - 1].cat, left[i + 1].cat);
    }
  }

  /** The reducer walks over what is pending. */
  lemma {:induction false} WalkFrom(left: seq<Seg>, x: seq<Seg>, i: nat, g: Goal)
    requires Pending(left) && Fits(left, x) && i <= |left| && GoodFrom(left, x, 0, g)
    ensures Good(left + x, i, g.f, g.p, g.b)
    decreases |left| - i
  {
    hide Pending, Fits, Still, Good, View, Clean;
    if i < |left| {
      WalkFrom(left, x, i + 1, g);
      StillThere(left, x, i);
      var a, b := left[..i], left[i + 1..] + x;
      assert a + ([left[i]] + b) == left + x && a + [left[i]] + b == left + x;
      ViewRest(a, [left[i]] + b);
      Quiet(a, left[i], b, g);
    }
  }

  lemma {:induction false} Walk(left: seq<Seg>, x: seq<Seg>, d: int, g: Goal)
    requires Pending(left) && Fits(left, x) && d <= 0 && GoodFrom(left, x, 0, g)
    ensures GoodFrom(left, x, d, g)
  {
    hide Pending, Fits, Good, Clean;
    WalkFrom(left, x, Move(|left|, d), g);
  }

  lemma {:induction false} PendingMore(left: seq<Seg>, x: Seg)
    requires Pending(left) && Waits(x.cat) && (left != [] ==> Holds(left[|left| - 1].cat, x.cat))
    ensures Pending(left + [x])
  {
    hide Waits, Holds;
    var v := left + [x];
    forall i | 0 < i < |v| ensures Holds(v[i - 1].cat, v[i].cat) {
    }
  }
}
