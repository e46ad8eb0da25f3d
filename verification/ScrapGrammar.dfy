/**
 The production table of CWEAVE (cweb/cweave.c:2295-2942): which run of scraps a
 production recognises, what it appends to the token memory, and what it leaves behind.
 */
module ScrapGrammar {

  /** Syntactic categories; `Zero` is the category read past the last scrap. */
  datatype Cat =
    | Zero
    | Exp | Unop | Binop | Unorbinop | Cast | Question | Lbrace | Rbrace | DeclHead
    | Comma | Lpar | Rpar | Prelangle | Prerangle | Langle | Colcol | Base | Decl
    | StructHead | Stmt | Function | FnDecl | ElseLike | Semi | Colon | Tag | IfHead
    | ElseHead | IfClause | Lproc | Rproc | Insert | SectionScrap | Dead | PublicLike
    | OperatorLike | NewLike | CatchLike | ForLike | DoLike | IfLike | RawRpar
    | RawUnorbin | ConstLike | RawInt | IntLike | CaseLike | SizeofLike | StructLike
    | TypedefLike | DefineLike | BeginArg | EndArg

  /**
   Tokens below 0400: layout codes in the order of their numbers (cweb/cweave.c:203-221),
   and ordinary characters.
   */
  datatype Mark =
    | Noop | MathRel | BigCancel | Cancel | Indent | Outdent | Opt | Backup | BreakSpace
    | Force | BigForce | PreprocLine | QuotedChar | EndTranslation | Inserted
    | Ch(c: char)

  /**
   One append made by a production. `Whole(i)` is `big_app1(pp+i)`, `Big(m)` is
   `big_app(m)`, `Raw(m)` is `app(m)`, and `Angle(m)` is the `app(m)` of productions 84
   and 85, which first force both mathnesses to yes.
   */
  datatype Item = Whole(i: nat) | Big(m: Mark) | Raw(m: Mark) | Angle(m: Mark)

  /**
   What a production does. `Relabel` is `squash` with k=1: only the category of scrap
   pp+at changes. `Rewrite` replaces the k scraps from pp+at by one scrap holding the
   appended items, after running `make_reserved(pp+reserve)` when reserve >= 0. In both
   cases pp moves by d, but not below the first scrap.
   */
  datatype Action =
    | NoMatch
    | Relabel(n: nat, at: nat, cat: Cat, d: int)
    | Rewrite(n: nat, at: nat, k: nat, cat: Cat, d: int, items: seq<Item>, reserve: int)

  /** The categories of the four scraps at pp, pp+1, pp+2 and pp+3. */
  datatype Window = Window(c0: Cat, c1: Cat, c2: Cat, c3: Cat) {
    function At(i: nat): Cat {
      if i == 0 then c0 else if i == 1 then c1 else if i == 2 then c2
      else if i == 3 then c3 else Zero
    }
  }

  /** Only the end of the list can make a category read as `Zero`. */
  ghost predicate Padded(w: Window) {
    && w.c0 != Zero
    && (w.c1 == Zero ==> w.c2 == Zero)
    && (w.c2 == Zero ==> w.c3 == Zero)
  }

  /** The well-founded order on categories that the one-scrap productions descend. */
  function Rank(c: Cat): nat {
    match c
    case RawInt | OperatorLike | PublicLike | ConstLike | IfClause => 3
    case IntLike | Cast | SectionScrap | NewLike | IfHead => 2
    case Exp | DeclHead | Prelangle | Prerangle | Colon | ElseLike | Semi | RawRpar | RawUnorbin => 1
    case _ => 0
  }

  /** Tokens that may stand only outside math, on whatever path they were appended. */
  predicate IsLayout(m: Mark) {
    m in {BigCancel, Cancel, Indent, Backup, BreakSpace, Force, BigForce}
  }

  /** Tokens that may stand only inside math. */
  predicate IsMathOnly(m: Mark) {
    m.MathRel? || (m.Ch? && m.c in "{}<>")
  }

  /** The dollar, and the angle brackets of productions 84 and 85. */
  predicate IsSpecial(m: Mark) {
    m.Ch? && (m.c == '$' || m.c == '<' || m.c == '>')
  }

  /**
   The items from index i on name the scraps from pp+at on, k of them, each once and in
   order. No item is a dollar or an angle bracket; and what `app` appends without
   consulting the mathness needs no particular mode, except for a layout token that
   repeats the one `big_app` has just appended (the `app(indent)` of productions 1 and 38),
   and for the outdents of production 52.
   */
  ghost predicate Covers(items: seq<Item>, i: nat, at: nat, k: nat)
    requires i <= |items|
    decreases |items| - i
  {
    if i == |items| then k == 0
    else match items[i]
      case Whole(j) => j == at && k > 0 && Covers(items, i + 1, at + 1, k - 1)
      case Big(m) => !IsSpecial(m) && Covers(items, i + 1, at, k)
      case Raw(m) =>
        && !IsSpecial(m) && !IsMathOnly(m) && (IsLayout(m) ==> i > 0 && items[i - 1] == Big(m))
        && (m == Outdent ==> items == FN_BODY)
        && Covers(items, i + 1, at, k)
      case Angle(_) => false
  }

  /** Marks that come in pairs: indent and outdent; and braces, of which math_rel opens one. */
  datatype Kind = Indents | Braces

  /** What a mark does to the depth. */
  function Delta(kind: Kind, m: Mark): int {
    match kind
    case Indents => if m == Indent then 1 else if m == Outdent then -1 else 0
    case Braces => if m == Ch('{') || m == MathRel then 1 else if m == Ch('}') then -1 else 0
  }

  /** From item i on, at depth d: the marks never close more than was opened, and close all of it. */
  predicate Closes(kind: Kind, items: seq<Item>, i: nat, d: int)
    requires i <= |items|
    decreases |items| - i
  {
    if i == |items| then d == 0
    else
      var d' := if items[i].Whole? then d else d + Delta(kind, items[i].m);
      d' >= 0 && Closes(kind, items, i + 1, d')
  }

  predicate Steady(items: seq<Item>) {
    Closes(Indents, items, 0, 0) && Closes(Braces, items, 0, 0)
  }

  lemma {:induction false} UnmarkedCloses(kind: Kind, items: seq<Item>, i: nat)
    requires i <= |items| && forall j :: i <= j < |items| ==> items[j].Whole? || Delta(kind, items[j].m) == 0
    ensures Closes(kind, items, i, 0)
    decreases |items| - i
  {
    if i < |items| { UnmarkedCloses(kind, items, i + 1); }
  }

  lemma UnmarkedSteady(items: seq<Item>)
    requires forall j :: 0 <= j < |items| ==> items[j].Whole? || Unpaired(items[j].m)
    ensures Steady(items)
  {
    UnmarkedCloses(Indents, items, 0);
    UnmarkedCloses(Braces, items, 0);
  }

  predicate Unpaired(m: Mark) {
    Delta(Indents, m) == 0 && Delta(Braces, m) == 0
  }

  /** How many of the k scraps from pp+at on are headings of functions, which are indented twice. */
  function Headings(w: Window, at: nat, k: nat): nat {
    Heading(w.At(at)) + (if k > 1 then Heading(w.At(at + 1)) else 0)
    + (if k > 2 then Heading(w.At(at + 2)) else 0) + (if k > 3 then Heading(w.At(at + 3)) else 0)
  }

  function Heading(c: Cat): nat {
    if c.FnDecl? then 1 else 0
  }

  /**
   A production keeps indentation and braces in pairs. It makes a heading out of what is none
   and indents it, keeps one as it is, or makes a function of it and undoes the indentation;
   only the end of a macro argument may lose one.
   */
  ghost predicate Nested(a: Action, w: Window) {
    match a
    case NoMatch => true
    case Relabel(_, at, c, _) => !c.FnDecl? && !c.EndArg? && !w.At(at).FnDecl?
    case Rewrite(_, at, k, c, _, items, _) =>
      && (c.EndArg? ==> k == 2 && (w.At(at).EndArg? || w.At(at + 1).EndArg?))
      && (|| (Steady(items) && (c.EndArg? || Headings(w, at, k) == Heading(c)))
          || ((items == INDENTED || items == PAIR_INDENTED) && c.FnDecl? && Headings(w, at, k) == 0)
          || (items == FN_BODY && at == 0 && k == 2 && w.c0.FnDecl? && !w.c1.FnDecl? && !c.FnDecl? && !c.EndArg?)
          || (IsBracket(a, w) && Headings(w, at, k) == 0))
  }

  /** What productions 1, 31, 38 and 100 append: a heading, and two indents. */
  const INDENTED := [Whole(0), Big(Indent), Raw(Indent)]
  const PAIR_INDENTED := [Whole(0), Whole(1), Big(Indent), Big(Indent)]

  /** What production 52 appends; no other production appends an outdent in whatever mode it finds. */
  const FN_BODY := [Whole(0), Raw(Outdent), Raw(Outdent), Big(Force), Whole(1)]

  /** Productions 84 and 85: the scrap's own text is thrown away for one byte. */
  ghost predicate IsBracket(a: Action, w: Window) {
    && a.Rewrite? && a.at == 0 && a.k == 1 && a.cat == Binop
    && ((w.c0 == Prelangle && a.items == [Angle(Ch('<'))]) || (w.c0 == Prerangle && a.items == [Angle(Ch('>'))]))
  }

  /** The run of k scraps from pp+at ends in a real scrap, so all of it is real. */
  ghost predicate Consumes(w: Window, at: nat, k: nat) {
    1 <= k && at + k <= 4 && w.At(at + k - 1) != Zero
  }

  /** `<` and `>` before they are told apart from operators. */
  predicate IsAngle(c: Cat) {
    c.Prelangle? || c.Prerangle?
  }

  /** An insert, or where one may begin: a preprocessor line becomes an insert. */
  predicate OpensInsert(c: Cat) {
    c.Insert? || c.Lproc?
  }

  /** An insert, or where one may end. */
  predicate ClosesInsert(c: Cat) {
    c.Insert? || c.Rproc?
  }

  /** The new scrap has a category of this kind only if it took it over from its run. */
  ghost predicate Inherits(w: Window, at: nat, k: nat, c: Cat)
    requires 1 <= k
  {
    && (OpensInsert(c) ==> 1 < k && OpensInsert(w.At(at)))
    && (ClosesInsert(c) ==> 1 < k && ClosesInsert(w.At(at + k - 1)))
    && (IsAngle(c) ==>
          k == 2 && ((w.At(at) == c && w.At(at + 1) == Insert) || (w.At(at) == Insert && w.At(at + 1) == c)))
  }

  /** Categories no production makes out of a single scrap. */
  predicate IsOriginal(c: Cat) {
    OpensInsert(c) || ClosesInsert(c) || IsAngle(c)
  }

  /** Everything later modules need to know about the production chosen for a window. */
  ghost predicate Sound(a: Action, w: Window) {
    Nested(a, w) && Fitting(a, w)
  }

  ghost predicate Fitting(a: Action, w: Window) {
    match a
    case NoMatch => true
    case Relabel(n, at, c, d) =>
      && Consumes(w, at, 1) && c != Zero && Rank(c) < Rank(w.At(at)) && -3 <= d <= at
      && !IsOriginal(c)
    case Rewrite(n, at, k, c, d, items, reserve) =>
      && Consumes(w, at, k) && c != Zero && -3 <= d <= at + 1
      && (k == 1 ==> Rank(c) < Rank(w.At(at)) && reserve == -1)
      && Inherits(w, at, k, c)
      && (reserve == -1 || (at <= reserve < at + k && 1 <= reserve))
      && items != []
      && (IsBracket(a, w) || Covers(items, 0, at, k))
  }

  function Squash(n: nat, at: nat, k: nat, c: Cat, d: int): (a: Action)
    requires 1 <= k <= 4
    ensures !a.NoMatch? && a.n == n
    ensures k == 1 ==> a == Relabel(n, at, c, d)
    ensures k > 1 ==>
      && a.Rewrite? && a.at == at && a.k == k && a.cat == c && a.d == d && a.reserve == -1
      && Steady(a.items) && a.items != [] && Covers(a.items, 0, at, k)
  {
    if k == 1 then Relabel(n, at, c, d)
    else if k == 2 then Rewrite(n, at, 2, c, d, Pair(at), -1)
    else if k == 3 then Rewrite(n, at, 3, c, d, Triple(at), -1)
    else Rewrite(n, at, 4, c, d, Quadruple(at), -1)
  }

  function Reduce(n: nat, k: nat, c: Cat, d: int, items: seq<Item>): Action {
    Rewrite(n, 0, k, c, d, items, -1)
  }

  // ----- What the productions append -----

  function Pair(at: nat): (items: seq<Item>)
    ensures Steady(items) && items != [] && Covers(items, 0, at, 2)
  {
    var items := [Whole(at), Whole(at + 1)];
    hide Steady;
    UnmarkedSteady(items);
    assert Covers(items, 1, at + 1, 1) by { assert Covers(items, 2, at + 2, 0); }
    items
  }

  function Triple(at: nat): (items: seq<Item>)
    ensures Steady(items) && items != [] && Covers(items, 0, at, 3)
  {
    var items := [Whole(at), Whole(at + 1), Whole(at + 2)];
    hide Steady;
    UnmarkedSteady(items);
    assert Covers(items, 1, at + 1, 2) by { assert Covers(items, 2, at + 2, 1) by { assert Covers(items, 3, at + 3, 0); } }
    items
  }

  function Quadruple(at: nat): (items: seq<Item>)
    ensures Steady(items) && items != [] && Covers(items, 0, at, 4)
  {
    var items := [Whole(at), Whole(at + 1), Whole(at + 2), Whole(at + 3)];
    hide Steady;
    UnmarkedSteady(items);
    assert Covers(items, 2, at + 2, 2) by { assert Covers(items, 3, at + 3, 1) by { assert Covers(items, 4, at + 4, 0); } }
    assert Covers(items, 1, at + 1, 3);
    items
  }

  /** Two neighbours with a mark between them. */
  function Joined(at: nat, m: Mark): (items: seq<Item>)
    requires !IsSpecial(m) && Unpaired(m)
    ensures Steady(items) && items != [] && Covers(items, 0, at, 2)
  {
    var items := [Whole(at), Big(m), Whole(at + 1)];
    hide Steady;
    UnmarkedSteady(items);
    assert Covers(items, 2, at + 1, 1) by { assert Covers(items, 3, at + 2, 0); }
    items
  }

  function Indented(): (items: seq<Item>)
    ensures items == INDENTED && items != [] && Covers(items, 0, 0, 1)
  {
    [Whole(0), Big(Indent), Raw(Indent)]
  }

  function CommaList(): (items: seq<Item>)
    ensures Steady(items) && items != [] && Covers(items, 0, 0, 3)
  {
    var items := [Whole(0), Whole(1), Raw(Opt), Raw(Ch('9')), Whole(2)];
    hide Steady;
    UnmarkedSteady(items);
    items
  }

  function BaseList(): (items: seq<Item>)
    ensures Steady(items) && items != [] && Covers(items, 0, 1, 3)
  {
    var items := [Whole(1), Big(Ch(' ')), Whole(2), Whole(3), Raw(Opt), Raw(Ch('9'))];
    hide Steady;
    assert Covers(items, 3, 3, 1);
    UnmarkedSteady(items);
    items
  }

  function SpacedTriple(): (items: seq<Item>)
    ensures Steady(items) && items != [] && Covers(items, 0, 0, 3)
  {
    [Whole(0), Big(Ch(' ')), Whole(1), Big(Ch(' ')), Whole(2)]
  }

  function ThinPair(): (items: seq<Item>)
    ensures Steady(items) && items != [] && Covers(items, 0, 0, 2)
  {
    [Whole(0), Raw(Ch('\\')), Raw(Ch(',')), Whole(1)]
  }

  function OptTriple(): (items: seq<Item>)
    ensures Steady(items) && items != [] && Covers(items, 0, 0, 3)
  {
    var items := [Whole(0), Whole(1), Whole(2), Raw(Opt), Raw(Ch('9'))];
    hide Steady;
    UnmarkedSteady(items);
    items
  }

  function PairSpace(): (items: seq<Item>)
    ensures Steady(items) && items != [] && Covers(items, 0, 0, 2)
  {
    [Whole(0), Whole(1), Big(Ch(' '))]
  }

  function PrefixOp(): (items: seq<Item>)
    ensures Steady(items) && items != [] && Covers(items, 0, 0, 2)
  {
    [Big(Ch('{')), Whole(0), Big(Ch('}')), Whole(1)]
  }

  function RelOp(): (items: seq<Item>)
    ensures Steady(items) && items != [] && Covers(items, 0, 0, 2)
  {
    [Big(MathRel), Whole(0), Big(Ch('{')), Whole(1), Big(Ch('}')), Big(Ch('}'))]
  }

  function RelPair(): (items: seq<Item>)
    ensures Steady(items) && items != [] && Covers(items, 0, 0, 2)
  {
    [Big(MathRel), Big(Ch('{')), Whole(0), Big(Ch('}')), Big(Ch('{')), Whole(1), Big(Ch('}')),
     Big(Ch('}'))]
  }

  function ThenSpace(): (items: seq<Item>)
    ensures Steady(items) && items != [] && Covers(items, 0, 0, 1)
  {
    [Whole(0), Big(Ch(' '))]
  }

  function Alone(): (items: seq<Item>)
    ensures Steady(items) && items != [] && Covers(items, 0, 0, 1)
  {
    [Whole(0)]
  }

  function PairIndent(): (items: seq<Item>)
    ensures items == PAIR_INDENTED && items != [] && Covers(items, 0, 0, 2)
  {
    [Whole(0), Whole(1), Big(Indent), Big(Indent)]
  }

  function BracedSecond(): (items: seq<Item>)
    ensures Steady(items) && items != [] && Covers(items, 0, 0, 2)
  {
    [Whole(0), Big(Ch('{')), Whole(1), Big(Ch('}'))]
  }

  function SpacedThenPlain(): (items: seq<Item>)
    ensures Steady(items) && items != [] && Covers(items, 0, 0, 3)
  {
    [Whole(0), Big(Ch(' ')), Whole(1), Whole(2)]
  }

  function StructBody(): (items: seq<Item>)
    ensures Steady(items) && items != [] && Covers(items, 0, 0, 3)
  {
    [Whole(0), Big(Indent), Big(Force), Whole(1), Big(Outdent), Big(Force), Whole(2)]
  }

  function FnBody(): (items: seq<Item>)
    ensures items == FN_BODY && items != [] && Covers(items, 0, 0, 2)
  {
    FN_BODY
  }

  function Block(): (items: seq<Item>)
    ensures Steady(items) && items != [] && Covers(items, 0, 0, 3)
  {
    [Big(Force), Whole(0), Big(Indent), Big(Force), Whole(1), Big(Force), Big(Backup), Whole(2),
     Big(Outdent), Big(Force)]
  }

  function DoWhile(): (items: seq<Item>)
    ensures Steady(items) && items != [] && Covers(items, 0, 0, 4)
  {
    var items := [Whole(0), Big(BreakSpace), Raw(Noop), Big(Cancel), Whole(1), Big(Cancel), Raw(Noop),
       Big(BreakSpace), Whole(2), Whole(3)];
    hide Steady;
    UnmarkedSteady(items);
    items
  }

  function Clause(): (items: seq<Item>)
    ensures Steady(items) && items != [] && Covers(items, 0, 0, 2)
  {
    [Big(Force), Whole(0), Big(Indent), Big(BreakSpace), Whole(1), Big(Outdent), Big(Force)]
  }

  function ClauseElseIf(): (items: seq<Item>)
    ensures Steady(items) && items != [] && Covers(items, 0, 0, 4)
  {
    [Big(Force), Whole(0), Big(Indent), Big(BreakSpace), Whole(1), Big(Outdent), Big(Force), Whole(2),
     Big(Ch(' ')), Whole(3)]
  }

  function ClauseElse(): (items: seq<Item>)
    ensures Steady(items) && items != [] && Covers(items, 0, 0, 3)
  {
    [Big(Force), Whole(0), Big(Indent), Big(BreakSpace), Whole(1), Big(Outdent), Big(Force), Whole(2)]
  }

  function BracedElseIf(): (items: seq<Item>)
    ensures Steady(items) && items != [] && Covers(items, 0, 0, 4)
  {
    var items := [Big(Force), Whole(0), Big(BreakSpace), Raw(Noop), Big(Cancel), Whole(1), Big(Force), Whole(2),
       Big(Ch(' ')), Whole(3)];
    hide Steady;
    assert Covers(items, 7, 2, 2);
    assert Covers(items, 5, 1, 3);
    assert Covers(items, 2, 1, 3);
    UnmarkedSteady(items);
    items
  }

  function BracedElse(): (items: seq<Item>)
    ensures Steady(items) && items != [] && Covers(items, 0, 0, 3)
  {
    var items := [Big(Force), Whole(0), Big(BreakSpace), Raw(Noop), Big(Cancel), Whole(1), Big(Force), Whole(2)];
    hide Steady;
    UnmarkedSteady(items);
    items
  }

  function BracedClause(): (items: seq<Item>)
    ensures Steady(items) && items != [] && Covers(items, 0, 0, 2)
  {
    var items := [Big(Force), Whole(0), Big(BreakSpace), Raw(Noop), Big(Cancel), Whole(1), Big(Force)];
    hide Steady;
    UnmarkedSteady(items);
    items
  }

  function Labelled(): (items: seq<Item>)
    ensures Steady(items) && items != [] && Covers(items, 0, 0, 2)
  {
    [Big(Force), Big(Backup), Whole(0), Big(BreakSpace), Whole(1)]
  }

  function SpaceFirst(): (items: seq<Item>)
    ensures Steady(items) && items != [] && Covers(items, 0, 0, 1)
  {
    [Big(Ch(' ')), Whole(0)]
  }

  function InsertedPair(): (items: seq<Item>)
    ensures Steady(items) && items != [] && Covers(items, 0, 0, 2)
  {
    [Raw(Inserted), Whole(0), Whole(1)]
  }

  function InsertedLine(): (items: seq<Item>)
    ensures Steady(items) && items != [] && Covers(items, 0, 0, 3)
  {
    var items := [Raw(Inserted), Whole(0), Big(Ch(' ')), Whole(1), Whole(2)];
    hide Steady;
    UnmarkedSteady(items);
    items
  }

  function InsertedPairLine(): (items: seq<Item>)
    ensures Steady(items) && items != [] && Covers(items, 0, 0, 4)
  {
    var items := [Raw(Inserted), Whole(0), Big(Ch(' ')), Whole(1), Raw(Ch(' ')), Raw(Ch('\\')), Raw(Ch('5')),
       Whole(2), Whole(3)];
    hide Steady;
    assert Covers(items, 7, 2, 2) && Covers(items, 4, 2, 2);
    UnmarkedSteady(items);
    items
  }

  function PairForce(): (items: seq<Item>)
    ensures Steady(items) && items != [] && Covers(items, 0, 0, 2)
  {
    [Whole(0), Whole(1), Big(Force)]
  }

  function BasePublic(): (items: seq<Item>)
    ensures Steady(items) && items != [] && Covers(items, 0, 0, 4)
  {
    [Whole(0), Whole(1), Big(Ch(' ')), Whole(2), Whole(3)]
  }

  function PairControlSpace(): (items: seq<Item>)
    ensures Steady(items) && items != [] && Covers(items, 0, 0, 2)
  {
    [Whole(0), Whole(1), Raw(Ch('\\')), Raw(Ch(' '))]
  }

  // ----- The table -----

  function MatchExp(w: Window): (a: Action)
    requires w.c0 == Exp && Padded(w)
    ensures Sound(a, w)
  {
    hide Covers, Steady, IsBracket, Indented;
    if w.c1 == Lbrace || w.c1 == IntLike || w.c1 == Decl then
      Reduce(1, 1, FnDecl, 0, Indented())
    else if w.c1 == Base then MatchExpBase(w)
    else MatchExpMore(w)
  }

  function MatchExpMore(w: Window): (a: Action)
    requires w.c0 == Exp && Padded(w)
    ensures Sound(a, w)
  {
    hide Covers, Steady, IsBracket, CommaList, Squash;
    var Window(_, c1, c2, _) := w;
    if c1 == Unop then Squash(2, 0, 2, Exp, -2)
    else if (c1 == Binop || c1 == Unorbinop) && c2 == Exp then Squash(3, 0, 3, Exp, -2)
    else if c1 == Comma && c2 == Exp then
      Reduce(4, 3, Exp, -2, CommaList())
    else if c1 == Exp || c1 == Cast then Squash(5, 0, 2, Exp, -2)
    else if c1 == Semi then Squash(6, 0, 2, Stmt, -1)
    else if c1 == Colon then Squash(7, 0, 2, Tag, 0)
    else if c1 == Rbrace then Squash(10, 0, 1, Stmt, -1)
    else NoMatch
  }

  function MatchExpBase(w: Window): (a: Action)
    requires w.c0 == Exp && w.c1 == Base && Padded(w)
    ensures Sound(a, w)
  {
    hide Covers, Steady, IsBracket, BaseList, SpacedTriple;
    if w.c2 == IntLike && w.c3 == Comma then
      Rewrite(8, 1, 3, Base, 0, BaseList(), -1)
    else if w.c2 == IntLike && w.c3 == Lbrace then
      Reduce(9, 3, Exp, -1, SpacedTriple())
    else NoMatch
  }

  function MatchLpar(w: Window): (a: Action)
    requires w.c0 == Lpar && Padded(w)
    ensures Sound(a, w)
  {
    hide Covers, Steady, IsBracket, ThinPair, OptTriple, PairSpace, Squash;
    var Window(_, c1, c2, _) := w;
    if (c1 == Exp || c1 == Unorbinop) && c2 == Rpar then Squash(11, 0, 3, Exp, -2)
    else if c1 == Rpar then
      Reduce(12, 2, Exp, -2, ThinPair())
    else if c1 == DeclHead || c1 == IntLike || c1 == Exp then
      if c2 == Rpar then Squash(13, 0, 3, Cast, -2)
      else if c2 == Comma then
        Reduce(14, 3, Lpar, 0, OptTriple())
      else NoMatch
    else if c1 == Stmt || c1 == Decl then
      Reduce(15, 2, Lpar, 0, PairSpace())
    else NoMatch
  }

  /** question, unop, unorbinop, binop, cast, sizeof_like. */
  function MatchOperator(w: Window): (a: Action)
    requires w.c0 in {Question, Unop, Unorbinop, Binop, Cast, SizeofLike} && Padded(w)
    ensures Sound(a, w)
  {
    hide Covers, Steady, IsBracket, Joined, PrefixOp, RelOp, RelPair, Squash;
    var Window(c0, c1, c2, _) := w;
    if c0 == Question then
      if c1 == Exp && c2 == Colon then Squash(16, 0, 3, Binop, -2) else NoMatch
    else if c0 == Unop then
      if c1 == Exp || c1 == IntLike then Squash(17, 0, 2, c1, -2) else NoMatch
    else if c0 == Unorbinop then
      if c1 == Exp || c1 == IntLike then
        Reduce(18, 2, c1, -2, PrefixOp())
      else if c1 == Binop then
        Reduce(19, 2, Binop, -1, RelOp())
      else NoMatch
    else if c0 == Binop then
      if c1 == Binop then
        Reduce(20, 2, Binop, -1, RelPair())
      else NoMatch
    else if c0 == Cast then
      if c1 == Exp then Reduce(21, 2, Exp, -2, Joined(0, Ch(' ')))
      else if c1 == Semi then Squash(22, 0, 1, Exp, -2)
      else NoMatch
    else
      if c1 == Cast then Squash(23, 0, 2, Exp, -2)
      else if c1 == Exp then Reduce(24, 2, Exp, -2, Joined(0, Ch(' ')))
      else NoMatch
  }

  function MatchIntLike(w: Window): (a: Action)
    requires w.c0 == IntLike && Padded(w)
    ensures Sound(a, w)
  {
    hide Covers, Steady, IsBracket, Joined, ThenSpace, Alone, PairIndent, Squash;
    var Window(_, c1, c2, _) := w;
    if c1 == IntLike || c1 == StructLike then
      Reduce(25, 2, c1, -2, Joined(0, Ch(' ')))
    else if c1 == Exp && (c2 == RawInt || c2 == StructLike) then Squash(26, 0, 2, IntLike, -2)
    else if c1 == Exp || c1 == Unorbinop || c1 == Semi then
      if c1 != Semi then Reduce(27, 1, DeclHead, -1, ThenSpace())
      else Reduce(27, 1, DeclHead, -1, Alone())
    else if c1 == Colon then Reduce(28, 1, DeclHead, 0, ThenSpace())
    else if c1 == Prelangle then Squash(29, 1, 1, Langle, 1)
    else if c1 == Colcol && (c2 == Exp || c2 == IntLike) then Squash(30, 0, 3, c2, -2)
    else if c1 == Cast then
      if c2 == Lbrace then
        Reduce(31, 2, FnDecl, 1, PairIndent())
      else Squash(32, 0, 2, IntLike, -2)
    else NoMatch
  }

  function MatchDeclHead(w: Window): (a: Action)
    requires w.c0 == DeclHead && Padded(w)
    ensures Sound(a, w)
  {
    hide Covers, Steady, IsBracket, Indented, PairSpace, BracedSecond, Squash;
    var Window(_, c1, c2, c3) := w;
    if c1 == Comma then Reduce(33, 2, DeclHead, -1, PairSpace())
    else if c1 == Unorbinop then
      Reduce(34, 2, DeclHead, -1, BracedSecond())
    else if c1 == Exp && c2 != Lpar && c2 != Exp then Squash(35, 0, 2, DeclHead, -1)
    else if (c1 == Binop || c1 == Colon) && c2 == Exp && (c3 == Comma || c3 == Semi || c3 == Rpar) then
      Squash(36, 0, 3, DeclHead, -1)
    else if c1 == Cast then Squash(37, 0, 2, DeclHead, -1)
    else if c1 == Lbrace || (c1 == IntLike && c2 != Colcol) || c1 == Decl then
      Reduce(38, 1, FnDecl, 0, Indented())
    else if c1 == Semi then Squash(39, 0, 2, Decl, -1)
    else NoMatch
  }

  /** decl, typedef_like. */
  function MatchDeclaration(w: Window): (a: Action)
    requires w.c0 in {Decl, TypedefLike} && Padded(w)
    ensures Sound(a, w)
  {
    hide Covers, Steady, IsBracket, Pair, Joined, SpacedThenPlain;
    var Window(c0, c1, c2, c3) := w;
    if c0 == Decl then
      if c1 == Decl then Reduce(40, 2, Decl, -1, Joined(0, Force))
      else if c1 == Stmt || c1 == Function then
        Reduce(41, 2, c1, -1, Joined(0, BigForce))
      else NoMatch
    else
      if c1 == DeclHead then
        if (c2 == Exp && c3 != Lpar && c3 != Exp) || c2 == IntLike then
          Rewrite(42, 1, 2, DeclHead, 0, Pair(1), 2)
        else if c2 == Semi then
          Reduce(43, 3, Decl, -1, SpacedThenPlain())
        else NoMatch
      else NoMatch
  }

  /** struct_head, fn_decl, function. */
  function MatchBody(w: Window): (a: Action)
    requires w.c0 in {StructHead, FnDecl, Function} && Padded(w)
    ensures Sound(a, w)
  {
    hide Covers, Steady, IsBracket, Joined, ThinPair, StructBody, FnBody;
    var Window(c0, c1, c2, c3) := w;
    if c0 == StructHead then
      if (c1 == Decl || c1 == Stmt || c1 == Function) && c2 == Rbrace then
        Reduce(49, 3, IntLike, -2, StructBody())
      else if c1 == Rbrace then
        Reduce(50, 2, IntLike, -2, ThinPair())
      else NoMatch
    else if c0 == FnDecl then
      if c1 == Decl then Reduce(51, 2, FnDecl, 0, Joined(0, Force))
      else if c1 == Stmt then
        Reduce(52, 2, Function, -1, FnBody())
      else NoMatch
    else
      if c1 == Function || c1 == Decl || c1 == Stmt then
        Reduce(53, 2, c1, -1, Joined(0, BigForce))
      else NoMatch
  }

  function MatchStructLike(w: Window): (a: Action)
    requires w.c0 == StructLike && Padded(w)
    ensures Sound(a, w)
  {
    hide Covers, Steady, IsBracket, Joined, SpacedTriple, Squash;
    var Window(_, c1, c2, _) := w;
    if c1 == Lbrace then Reduce(44, 2, StructHead, 0, Joined(0, Ch(' ')))
    else if c1 == Exp || c1 == IntLike then
      if c2 == Lbrace || c2 == Semi then
        if c2 == Semi then
          Rewrite(45, 0, 2, DeclHead, 0, Joined(0, Ch(' ')), 1)
        else
          Rewrite(46, 0, 3, StructHead, 0, SpacedTriple(), 1)
      else if c2 == Colon then Squash(47, 2, 1, Base, -1)
      else if c2 != Base then Reduce(48, 2, IntLike, -2, Joined(0, Ch(' ')))
      else NoMatch
    else NoMatch
  }

  function MatchLbrace(w: Window): (a: Action)
    requires w.c0 == Lbrace && Padded(w)
    ensures Sound(a, w)
  {
    hide Covers, Steady, IsBracket, ThinPair, Block, Squash;
    var Window(_, c1, c2, c3) := w;
    if c1 == Rbrace then
      Reduce(54, 2, Stmt, -1, ThinPair())
    else if (c1 == Stmt || c1 == Decl || c1 == Function) && c2 == Rbrace then
      Reduce(55, 3, Stmt, -1, Block())
    else if c1 == Exp then
      if c2 == Rbrace then Squash(56, 0, 3, Exp, -2)
      else if c2 == Comma && c3 == Rbrace then Squash(56, 0, 4, Exp, -2)
      else NoMatch
    else NoMatch
  }

  /** do_like, if_like, for_like, else_like. */
  function MatchControl(w: Window): (a: Action)
    requires w.c0 in {DoLike, IfLike, ForLike, ElseLike} && Padded(w)
    ensures Sound(a, w)
  {
    hide Covers, Steady, IsBracket, Joined, DoWhile, Clause, Squash;
    var Window(c0, c1, c2, c3) := w;
    if c0 == DoLike then
      if c1 == Stmt && c2 == ElseLike && c3 == Semi then
        Reduce(69, 4, Stmt, -1, DoWhile())
      else NoMatch
    else if c0 == IfLike then
      if c1 == Exp then Reduce(57, 2, IfClause, 0, Joined(0, Ch(' '))) else NoMatch
    else if c0 == ForLike then
      if c1 == Exp then Reduce(58, 2, ElseLike, -2, Joined(0, Ch(' '))) else NoMatch
    else
      if c1 == Lbrace then Squash(59, 0, 1, ElseHead, 0)
      else if c1 == Stmt then
        Reduce(60, 2, Stmt, -1, Clause())
      else NoMatch
  }

  /** if_clause, if_head, else_head. */
  function MatchConditional(w: Window): (a: Action)
    requires w.c0 in {IfClause, IfHead, ElseHead} && Padded(w)
    ensures Sound(a, w)
  {
    hide Covers, Steady, IsBracket, BracedClause;
    if w.c0 == IfClause then MatchIfClause(w)
    else if w.c0 == IfHead then MatchIfHead(w)
    else if w.c1 == Stmt || w.c1 == Exp then Reduce(61, 2, Stmt, -1, BracedClause())
    else NoMatch
  }

  function MatchIfClause(w: Window): (a: Action)
    requires w.c0 == IfClause && Padded(w)
    ensures Sound(a, w)
  {
    hide Covers, Steady, IsBracket, ClauseElseIf, ClauseElse, Squash;
    var Window(_, c1, c2, c3) := w;
    if c1 == Lbrace then Squash(62, 0, 1, IfHead, 0)
    else if c1 == Stmt then
      if c2 == ElseLike then
        if c3 == IfLike then
          Reduce(63, 4, IfLike, 0, ClauseElseIf())
        else
          Reduce(64, 3, ElseLike, 0, ClauseElse())
      else Squash(65, 0, 1, ElseLike, 0)
    else NoMatch
  }

  function MatchIfHead(w: Window): (a: Action)
    requires w.c0 == IfHead && Padded(w)
    ensures Sound(a, w)
  {
    hide Covers, Steady, IsBracket, BracedElseIf, BracedElse, Squash;
    var Window(_, c1, c2, c3) := w;
    if c1 == Stmt || c1 == Exp then
      if c2 == ElseLike then
        if c3 == IfLike then
          Reduce(66, 4, IfLike, 0, BracedElseIf())
        else
          Reduce(67, 3, ElseLike, 0, BracedElse())
      else Squash(68, 0, 1, ElseHead, 0)
    else NoMatch
  }

  /** case_like, tag. */
  function MatchLabel(w: Window): (a: Action)
    requires w.c0 in {CaseLike, Tag} && Padded(w)
    ensures Sound(a, w)
  {
    hide Covers, Steady, IsBracket, Joined, SpacedThenPlain, Labelled, Squash;
    var Window(c0, c1, c2, _) := w;
    if c0 == CaseLike then
      if c1 == Semi then Squash(70, 0, 2, Stmt, -1)
      else if c1 == Colon then Squash(71, 0, 2, Tag, -1)
      else if c1 == Exp then
        if c2 == Semi then Reduce(72, 3, Stmt, -1, SpacedThenPlain())
        else if c2 == Colon then Reduce(73, 3, Tag, -1, SpacedThenPlain())
        else NoMatch
      else NoMatch
    else
      if c1 == Tag then Reduce(74, 2, Tag, -1, Joined(0, BreakSpace))
      else if c1 == Stmt || c1 == Decl || c1 == Function then
        Reduce(75, 2, c1, -1, Labelled())
      else NoMatch
  }

  /** stmt, semi; `forceLines` is the command-line flag `f`. */
  function MatchStmt(w: Window, forceLines: bool): (a: Action)
    requires w.c0 in {Stmt, Semi} && Padded(w)
    ensures Sound(a, w)
  {
    hide Covers, Steady, IsBracket, Joined, SpaceFirst;
    var Window(c0, c1, _, _) := w;
    if c0 == Stmt then
      if c1 == Stmt || c1 == Decl || c1 == Function then
        if c1 == Function || c1 == Decl then
          Reduce(76, 2, c1, -1, Joined(0, BigForce))
        else if forceLines then
          Reduce(76, 2, c1, -1, Joined(0, Force))
        else
          Reduce(76, 2, c1, -1, Joined(0, BreakSpace))
      else NoMatch
    else
      Reduce(77, 1, Stmt, -1, SpaceFirst())
  }

  /** lproc, section_scrap. */
  function MatchSpecial(w: Window): (a: Action)
    requires w.c0 in {Lproc, SectionScrap} && Padded(w)
    ensures Sound(a, w)
  {
    hide Covers, Steady, IsBracket, InsertedPair, InsertedLine, InsertedPairLine, PairForce, Squash;
    var Window(c0, c1, c2, c3) := w;
    if c0 == Lproc then
      if c1 == ElseLike || c1 == IfLike || c1 == DefineLike then Squash(78, 0, 2, Lproc, 0)
      else if c1 == Rproc then Reduce(79, 2, Insert, -1, InsertedPair())
      else if c1 == Exp || c1 == Function then
        if c2 == Rproc then
          Reduce(80, 3, Insert, -1, InsertedLine())
        else if c2 == Exp && c3 == Rproc && c1 == Exp then
          Reduce(80, 4, Insert, -1, InsertedPairLine())
        else NoMatch
      else NoMatch
    else
      if c1 == Semi then Reduce(81, 2, Stmt, -2, PairForce())
      else Squash(82, 0, 1, Exp, -2)
  }

  /** insert, prelangle, prerangle. */
  function MatchAngle(w: Window): (a: Action)
    requires w.c0 in {Insert, Prelangle, Prerangle} && Padded(w)
    ensures Sound(a, w)
  {
    hide Covers, Steady, Squash;
    var Window(c0, c1, c2, c3) := w;
    if c0 == Insert then
      if c1 != Zero then Squash(83, 0, 2, c1, 0) else NoMatch
    else if c0 == Prelangle then Reduce(84, 1, Binop, -2, [Angle(Ch('<'))])
    else Reduce(85, 1, Binop, -2, [Angle(Ch('>'))])
  }

  /** langle, public_like, colcol. */
  function MatchClass(w: Window): (a: Action)
    requires w.c0 in {Langle, PublicLike, Colcol} && Padded(w)
    ensures Sound(a, w)
  {
    hide Covers, Steady, IsBracket, ThinPair, OptTriple, Squash;
    var Window(c0, c1, c2, c3) := w;
    if c0 == Langle then
      if c1 == Exp && c2 == Prerangle then Squash(86, 0, 3, Cast, -1)
      else if c1 == Prerangle then
        Reduce(87, 2, Cast, -1, ThinPair())
      else if c1 == DeclHead || c1 == IntLike then
        if c2 == Prerangle then Squash(88, 0, 3, Cast, -1)
        else if c2 == Comma then
          Reduce(89, 3, Langle, 0, OptTriple())
        else NoMatch
      else NoMatch
    else if c0 == PublicLike then
      if c1 == Colon then Squash(90, 0, 2, Tag, -1) else Squash(91, 0, 1, IntLike, -2)
    else
      if c1 == Exp || c1 == IntLike then Squash(92, 0, 2, c1, -2) else NoMatch
  }

  /** new_like, operator_like. */
  function MatchNew(w: Window): (a: Action)
    requires w.c0 in {NewLike, OperatorLike} && Padded(w)
    ensures Sound(a, w)
  {
    hide Covers, Steady, IsBracket, Joined, BracedSecond, Squash;
    var Window(c0, c1, c2, c3) := w;
    if c0 == NewLike then
      if c1 == Exp || (c1 == RawInt && c2 != Prelangle && c2 != Langle) then
        Reduce(93, 2, NewLike, 0, Joined(0, Ch(' ')))
      else if c1 == RawUnorbin || c1 == Colcol then Squash(94, 0, 2, NewLike, 0)
      else if c1 == Cast then Squash(95, 0, 2, Exp, -2)
      else if c1 != Lpar && c1 != RawInt && c1 != StructLike then Squash(96, 0, 1, Exp, -2)
      else NoMatch
    else
      if c1 == Binop || c1 == Unop || c1 == Unorbinop then
        if c2 == Binop then NoMatch
        else Reduce(97, 2, Exp, -2, BracedSecond())
      else if c1 == NewLike || c1 == SizeofLike then
        Reduce(98, 2, Exp, -2, Joined(0, Ch(' ')))
      else Squash(99, 0, 1, NewLike, 0)
  }

  /** catch_like, base. */
  function MatchBase(w: Window): (a: Action)
    requires w.c0 in {CatchLike, Base} && Padded(w)
    ensures Sound(a, w)
  {
    hide Covers, Steady, IsBracket, Joined, PairIndent, BasePublic;
    var Window(c0, c1, c2, c3) := w;
    if c0 == CatchLike then
      if c1 == Cast || c1 == Exp then
        Reduce(100, 2, FnDecl, 0, PairIndent())
      else NoMatch
    else
      if c1 == PublicLike && c2 == Exp then
        if c3 == Comma then
          Reduce(101, 4, Base, 0, BasePublic())
        else
          Rewrite(102, 1, 2, IntLike, -1, Joined(1, Ch(' ')), -1)
      else NoMatch
  }

  /** raw_rpar, raw_unorbin. */
  function MatchRaw(w: Window): (a: Action)
    requires w.c0 in {RawRpar, RawUnorbin} && Padded(w)
    ensures Sound(a, w)
  {
    hide Covers, Steady, IsBracket, Joined, PairControlSpace, Squash;
    var Window(c0, c1, c2, _) := w;
    if c0 == RawRpar then
      if c1 == ConstLike && (c2 == Semi || c2 == Lbrace || c2 == Comma || c2 == Binop || c2 == ConstLike) then
        Reduce(103, 2, RawRpar, 0, Joined(0, Ch(' ')))
      else Squash(104, 0, 1, Rpar, -3)
    else
      if c1 == ConstLike then
        Reduce(105, 2, RawUnorbin, 0, PairControlSpace())
      else Squash(106, 0, 1, Unorbinop, -2)
  }

  /** const_like, raw_int. */
  function MatchRawInt(w: Window): (a: Action)
    requires w.c0 in {ConstLike, RawInt} && Padded(w)
    ensures Sound(a, w)
  {
    hide Covers, Steady, IsBracket, Squash;
    if w.c0 == ConstLike then Squash(107, 0, 1, IntLike, -2)
    else if w.c1 == Lpar then Squash(108, 0, 1, Exp, -2)
    else Squash(109, 0, 1, IntLike, -3)
  }

  /** The switch on `pp->cat` (cweb/cweave.c:2303-2936). */
  function MatchCategory(w: Window, forceLines: bool): (a: Action)
    requires Padded(w)
    ensures Sound(a, w)
  {
    hide Covers, Steady;
    match w.c0
    case Exp => MatchExp(w)
    case Lpar => MatchLpar(w)
    case Question | Unop | Unorbinop | Binop | Cast | SizeofLike => MatchOperator(w)
    case IntLike => MatchIntLike(w)
    case DeclHead => MatchDeclHead(w)
    case Decl | TypedefLike => MatchDeclaration(w)
    case StructHead | FnDecl | Function => MatchBody(w)
    case StructLike => MatchStructLike(w)
    case Lbrace => MatchLbrace(w)
    case DoLike | IfLike | ForLike | ElseLike => MatchControl(w)
    case IfClause | IfHead | ElseHead => MatchConditional(w)
    case CaseLike | Tag => MatchLabel(w)
    case Stmt | Semi => MatchStmt(w, forceLines)
    case Lproc | SectionScrap => MatchSpecial(w)
    case Insert | Prelangle | Prerangle => MatchAngle(w)
    case Langle | PublicLike | Colcol => MatchClass(w)
    case NewLike | OperatorLike => MatchNew(w)
    case CatchLike | Base => MatchBase(w)
    case RawRpar | RawUnorbin => MatchRaw(w)
    case ConstLike | RawInt => MatchRawInt(w)
    case _ => NoMatch
  }

  /**
   The production that applies at pp: macro arguments first, then inserts at distance
   one to three, then the switch on the category (cweb/cweave.c:2295-2302).
   */
  function Match(w: Window, forceLines: bool): (a: Action)
    requires Padded(w)
    ensures Sound(a, w)
  {
    hide Covers, Steady, IsBracket, Squash, Rank, MatchCategory;
    var simple := w.c0 in {Semi, RawInt, RawUnorbin, RawRpar, ConstLike};
    if w.c1 == EndArg && !simple then
      if w.c0 == BeginArg then Squash(110, 0, 2, Exp, -2) else Squash(111, 0, 2, EndArg, -1)
    else if w.c1 == Insert then Squash(0, 0, 2, w.c0, -2)
    else if w.c2 == Insert then Squash(0, 1, 2, w.c1, -1)
    else if w.c3 == Insert then Squash(0, 2, 2, w.c2, 0)
    else MatchCategory(w, forceLines)
  }
}
