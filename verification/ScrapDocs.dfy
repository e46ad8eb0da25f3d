/**
 The productions as CWEB documents them (cweb/prod.w): when each applies, and what it makes of
 its scraps.
 */
module ScrapDocs {
  import opened ScrapGrammar

  /** A part of a translation: scrap i, or a mark; the documentation does not say by which routine a mark is appended. */
  datatype Part = S(i: nat) | T(m: Mark)

  function PartOf(x: Item): Part {
    if x.Whole? then S(x.i) else T(x.m)
  }

  predicate SameAt(items: seq<Item>, parts: seq<Part>, i: nat) {
    i < |items| && i < |parts| ==> PartOf(items[i]) == parts[i]
  }

  /** The items are these parts, of which there are ten at most. */
  predicate SameParts(items: seq<Item>, parts: seq<Part>) {
    && |items| == |parts| <= 10
    && SameAt(items, parts, 0) && SameAt(items, parts, 1) && SameAt(items, parts, 2) && SameAt(items, parts, 3)
    && SameAt(items, parts, 4) && SameAt(items, parts, 5) && SameAt(items, parts, 6) && SameAt(items, parts, 7)
    && SameAt(items, parts, 8) && SameAt(items, parts, 9)
  }

  /** The juxtaposition of k scraps. */
  function Plain(at: nat, k: nat): seq<Part> {
    if k == 1 then [S(at)]
    else if k == 2 then [S(at), S(at + 1)]
    else if k == 3 then [S(at), S(at + 1), S(at + 2)]
    else [S(at), S(at + 1), S(at + 2), S(at + 3)]
  }

  /** Production n makes of the k scraps from pp+at on one scrap of this category and translation. */
  predicate Makes(a: Action, n: nat, at: nat, k: nat, c: Cat, parts: seq<Part>, reserve: int := -1) {
    match a
    case NoMatch => false
    case Relabel(n', at', c', _) => n' == n && at' == at && k == 1 && c' == c && parts == [S(at)]
    case Rewrite(n', at', k', c', _, items, reserve') =>
      n' == n && at' == at && k' == k && c' == c && SameParts(items, parts) && reserve' == reserve
  }

  /** `squash`. */
  lemma SquashMakes(n: nat, at: nat, k: nat, c: Cat, d: int)
    requires 1 <= k <= 4
    ensures Makes(Squash(n, at, k, c, d), n, at, k, c, Plain(at, k))
  {
  }

  lemma DocExp(w: Window, a: Action)
    requires w.c0 == Exp && Padded(w) && a == MatchExp(w)
    ensures (w.c1 == Lbrace || w.c1 == IntLike || w.c1 == Decl) <==> Makes(a, 1, 0, 1, FnDecl, [S(0), T(Indent), T(Indent)])
    ensures !(w.c1 == Lbrace || w.c1 == IntLike || w.c1 == Decl) ==> a == if w.c1 == Base then MatchExpBase(w) else MatchExpMore(w)
  {
    hide Sound, Covers, Steady, MatchExpMore, MatchExpBase;
    DocExpMore4(w, MatchExpMore(w));
    if w.c1 == Base { DocExpBase(w, MatchExpBase(w)); }
  }

  lemma DocExpMore1(w: Window, a: Action)
    requires w.c0 == Exp && Padded(w) && a == MatchExpMore(w)
    ensures w.c1 == Unop <==> Makes(a, 2, 0, 2, Exp, Plain(0, 2))
    ensures (w.c1 == Binop || w.c1 == Unorbinop) && w.c2 == Exp <==> Makes(a, 3, 0, 3, Exp, Plain(0, 3))
  {
    hide Sound, Covers, Steady, Squash, CommaList, Plain, SameParts;
    SquashMakes(2, 0, 2, Exp, -2);
    SquashMakes(3, 0, 3, Exp, -2);
  }

  lemma DocExpMore3(w: Window, a: Action)
    requires w.c0 == Exp && Padded(w) && a == MatchExpMore(w)
    ensures w.c1 == Comma && w.c2 == Exp <==> Makes(a, 4, 0, 3, Exp, [S(0), S(1), T(Opt), T(Ch('9')), S(2)])
    ensures w.c1 == Exp || w.c1 == Cast <==> Makes(a, 5, 0, 2, Exp, Plain(0, 2))
  {
    hide Sound, Covers, Steady, Squash;
    SquashMakes(5, 0, 2, Exp, -2);
  }

  lemma DocExpMore2(w: Window, a: Action)
    requires w.c0 == Exp && Padded(w) && a == MatchExpMore(w)
    ensures w.c1 == Semi <==> Makes(a, 6, 0, 2, Stmt, Plain(0, 2))
  {
    hide Sound, Covers, Steady, Squash, CommaList, Plain, SameParts;
    SquashMakes(6, 0, 2, Stmt, -1);
  }

  lemma DocExpMore4(w: Window, a: Action)
    requires w.c0 == Exp && Padded(w) && a == MatchExpMore(w)
    ensures w.c1 == Colon <==> Makes(a, 7, 0, 2, Tag, Plain(0, 2))
    ensures w.c1 == Rbrace <==> Makes(a, 10, 0, 1, Stmt, Plain(0, 1))
    ensures a.NoMatch? || 2 <= a.n <= 10
  {
    hide Sound, Covers, Steady, Squash, CommaList, Plain, SameParts;
    SquashMakes(7, 0, 2, Tag, 0);
    SquashMakes(10, 0, 1, Stmt, -1);
  }

  lemma DocExpBase(w: Window, a: Action)
    requires w.c0 == Exp && w.c1 == Base && Padded(w) && a == MatchExpBase(w)
    ensures w.c2 == IntLike && w.c3 == Comma
      <==> Makes(a, 8, 1, 3, Base, [S(1), T(Ch(' ')), S(2), S(3), T(Opt), T(Ch('9'))])
    ensures w.c2 == IntLike && w.c3 == Lbrace <==> Makes(a, 9, 0, 3, Exp, [S(0), T(Ch(' ')), S(1), T(Ch(' ')), S(2)])
    ensures a.NoMatch? || 8 <= a.n <= 9
  {
    hide Sound, Covers, Steady;
  }

  lemma DocLpar1(w: Window, a: Action)
    requires w.c0 == Lpar && Padded(w) && a == MatchLpar(w)
    ensures (w.c1 == Exp || w.c1 == Unorbinop) && w.c2 == Rpar <==> Makes(a, 11, 0, 3, Exp, Plain(0, 3))
    ensures w.c1 == Rpar <==> Makes(a, 12, 0, 2, Exp, [S(0), T(Ch('\\')), T(Ch(',')), S(1)])
    ensures (w.c1 == DeclHead || w.c1 == IntLike) && w.c2 == Rpar <==> Makes(a, 13, 0, 3, Cast, Plain(0, 3))
    ensures (w.c1 == DeclHead || w.c1 == IntLike || w.c1 == Exp) && w.c2 == Comma
      <==> Makes(a, 14, 0, 3, Lpar, [S(0), S(1), S(2), T(Opt), T(Ch('9'))])
  {
    hide Sound, Covers, Steady;
  }

  lemma DocLpar2(w: Window, a: Action)
    requires w.c0 == Lpar && Padded(w) && a == MatchLpar(w)
    ensures (w.c1 == Stmt || w.c1 == Decl) <==> Makes(a, 15, 0, 2, Lpar, [S(0), S(1), T(Ch(' '))])
    ensures a.NoMatch? || 11 <= a.n <= 15
  {
    hide Sound, Covers, Steady;
  }

  lemma DocQuestion(w: Window, a: Action)
    requires w.c0 == Question && Padded(w) && a == MatchOperator(w)
    ensures w.c1 == Exp && w.c2 == Colon <==> Makes(a, 16, 0, 3, Binop, Plain(0, 3))
    ensures a.NoMatch? || 16 <= a.n <= 16
  {
    hide Sound, Covers, Steady, Joined, PrefixOp, RelOp, RelPair;
  }

  lemma DocUnop(w: Window, a: Action)
    requires w.c0 == Unop && Padded(w) && a == MatchOperator(w)
    ensures (w.c1 == Exp || w.c1 == IntLike) <==> Makes(a, 17, 0, 2, w.c1, Plain(0, 2))
    ensures a.NoMatch? || 17 <= a.n <= 17
  {
    hide Sound, Covers, Steady, Joined, PrefixOp, RelOp, RelPair;
  }

  lemma DocUnorbinop(w: Window, a: Action)
    requires w.c0 == Unorbinop && Padded(w) && a == MatchOperator(w)
    ensures (w.c1 == Exp || w.c1 == IntLike) <==> Makes(a, 18, 0, 2, w.c1, [T(Ch('{')), S(0), T(Ch('}')), S(1)])
    ensures w.c1 == Binop <==> Makes(a, 19, 0, 2, Binop, [T(MathRel), S(0), T(Ch('{')), S(1), T(Ch('}')), T(Ch('}'))])
    ensures a.NoMatch? || 18 <= a.n <= 19
  {
    hide Sound, Covers, Steady, Joined, RelPair;
  }

  lemma DocBinop(w: Window, a: Action)
    requires w.c0 == Binop && Padded(w) && a == MatchOperator(w)
    ensures w.c1 == Binop
      <==> Makes(a, 20, 0, 2, Binop, [T(MathRel), T(Ch('{')), S(0), T(Ch('}')), T(Ch('{')), S(1), T(Ch('}')), T(Ch('}'))])
    ensures a.NoMatch? || 20 <= a.n <= 20
  {
    hide Sound, Covers, Steady, Joined, PrefixOp, RelOp;
  }

  lemma DocCast(w: Window, a: Action)
    requires w.c0 == Cast && Padded(w) && a == MatchOperator(w)
    ensures w.c1 == Exp <==> Makes(a, 21, 0, 2, Exp, [S(0), T(Ch(' ')), S(1)])
    ensures w.c1 == Semi <==> Makes(a, 22, 0, 1, Exp, Plain(0, 1))
    ensures a.NoMatch? || 21 <= a.n <= 22
  {
    hide Sound, Covers, Steady, PrefixOp, RelOp, RelPair;
  }

  lemma DocSizeofLike(w: Window, a: Action)
    requires w.c0 == SizeofLike && Padded(w) && a == MatchOperator(w)
    ensures w.c1 == Cast <==> Makes(a, 23, 0, 2, Exp, Plain(0, 2))
    ensures w.c1 == Exp <==> Makes(a, 24, 0, 2, Exp, [S(0), T(Ch(' ')), S(1)])
    ensures a.NoMatch? || 23 <= a.n <= 24
  {
    hide Sound, Covers, Steady, PrefixOp, RelOp, RelPair;
  }

  lemma DocIntLike1(w: Window, a: Action)
    requires w.c0 == IntLike && Padded(w) && a == MatchIntLike(w)
    ensures (w.c1 == IntLike || w.c1 == StructLike) <==> Makes(a, 25, 0, 2, w.c1, [S(0), T(Ch(' ')), S(1)])
    ensures w.c1 == Exp && (w.c2 == RawInt || w.c2 == StructLike) <==> Makes(a, 26, 0, 2, IntLike, Plain(0, 2))
    ensures w.c1 == Unorbinop || (w.c1 == Exp && w.c2 != RawInt && w.c2 != StructLike)
      <==> Makes(a, 27, 0, 1, DeclHead, [S(0), T(Ch(' '))])
  {
    hide Sound, Covers, Steady, Squash, PairIndent;
    SquashMakes(26, 0, 2, IntLike, -2);
  }

  lemma DocIntLike2(w: Window, a: Action)
    requires w.c0 == IntLike && Padded(w) && a == MatchIntLike(w)
    ensures w.c1 == Semi <==> Makes(a, 27, 0, 1, DeclHead, Plain(0, 1))
    ensures w.c1 == Colon <==> Makes(a, 28, 0, 1, DeclHead, [S(0), T(Ch(' '))])
    ensures w.c1 == Prelangle <==> Makes(a, 29, 1, 1, Langle, Plain(1, 1))
  {
    hide Sound, Covers, Steady, Squash, Joined, PairIndent;
    SquashMakes(29, 1, 1, Langle, 1);
  }

  lemma DocIntLike3(w: Window, a: Action)
    requires w.c0 == IntLike && Padded(w) && a == MatchIntLike(w)
    ensures w.c1 == Colcol && (w.c2 == Exp || w.c2 == IntLike) <==> Makes(a, 30, 0, 3, w.c2, Plain(0, 3))
    ensures w.c1 == Cast && w.c2 == Lbrace <==> Makes(a, 31, 0, 2, FnDecl, [S(0), S(1), T(Indent), T(Indent)])
    ensures w.c1 == Cast && w.c2 != Lbrace <==> Makes(a, 32, 0, 2, IntLike, Plain(0, 2))
    ensures a.NoMatch? || 25 <= a.n <= 32
  {
    hide Sound, Covers, Steady, Alone, Joined, ThenSpace;
  }

  lemma DocDeclHead1(w: Window, a: Action)
    requires w.c0 == DeclHead && Padded(w) && a == MatchDeclHead(w)
    ensures w.c1 == Comma <==> Makes(a, 33, 0, 2, DeclHead, [S(0), S(1), T(Ch(' '))])
    ensures w.c1 == Unorbinop <==> Makes(a, 34, 0, 2, DeclHead, [S(0), T(Ch('{')), S(1), T(Ch('}'))])
    ensures w.c1 == Exp && w.c2 != Lpar && w.c2 != Exp <==> Makes(a, 35, 0, 2, DeclHead, Plain(0, 2))
  {
    hide Sound, Covers, Steady;
  }

  lemma DocDeclHead2(w: Window, a: Action)
    requires w.c0 == DeclHead && Padded(w) && a == MatchDeclHead(w)
    ensures (w.c1 == Binop || w.c1 == Colon) && w.c2 == Exp && (w.c3 == Comma || w.c3 == Semi || w.c3 == Rpar)
      <==> Makes(a, 36, 0, 3, DeclHead, Plain(0, 3))
    ensures w.c1 == Cast <==> Makes(a, 37, 0, 2, DeclHead, Plain(0, 2))
    ensures w.c1 == Lbrace || w.c1 == Decl || (w.c1 == IntLike && w.c2 != Colcol)
      <==> Makes(a, 38, 0, 1, FnDecl, [S(0), T(Indent), T(Indent)])
  {
    hide Sound, Covers, Steady;
  }

  lemma DocDeclHead3(w: Window, a: Action)
    requires w.c0 == DeclHead && Padded(w) && a == MatchDeclHead(w)
    ensures w.c1 == Semi <==> Makes(a, 39, 0, 2, Decl, Plain(0, 2))
    ensures a.NoMatch? || 33 <= a.n <= 39
  {
    hide Sound, Covers, Steady;
  }

  lemma DocDecl(w: Window, a: Action)
    requires w.c0 == Decl && Padded(w) && a == MatchDeclaration(w)
    ensures w.c1 == Decl <==> Makes(a, 40, 0, 2, Decl, [S(0), T(Force), S(1)])
    ensures (w.c1 == Stmt || w.c1 == Function) <==> Makes(a, 41, 0, 2, w.c1, [S(0), T(BigForce), S(1)])
    ensures a.NoMatch? || 40 <= a.n <= 41
  {
    hide Sound, Covers, Steady;
  }

  lemma DocTypedefLike(w: Window, a: Action)
    requires w.c0 == TypedefLike && Padded(w) && a == MatchDeclaration(w)
    ensures (w.c1 == DeclHead && w.c2 == Exp && w.c3 != Lpar && w.c3 != Exp) || (w.c1 == DeclHead && w.c2 == IntLike)
      <==> Makes(a, 42, 1, 2, DeclHead, Plain(1, 2), 2)
    ensures w.c1 == DeclHead && w.c2 == Semi <==> Makes(a, 43, 0, 3, Decl, [S(0), T(Ch(' ')), S(1), S(2)])
    ensures a.NoMatch? || 42 <= a.n <= 43
  {
    hide Sound, Covers, Steady;
  }

  lemma DocStructLike1(w: Window, a: Action)
    requires w.c0 == StructLike && Padded(w) && a == MatchStructLike(w)
    ensures w.c1 == Lbrace <==> Makes(a, 44, 0, 2, StructHead, [S(0), T(Ch(' ')), S(1)])
    ensures (w.c1 == Exp || w.c1 == IntLike) && w.c2 == Semi <==> Makes(a, 45, 0, 2, DeclHead, [S(0), T(Ch(' ')), S(1)], 1)
    ensures (w.c1 == Exp || w.c1 == IntLike) && w.c2 == Lbrace
      <==> Makes(a, 46, 0, 3, StructHead, [S(0), T(Ch(' ')), S(1), T(Ch(' ')), S(2)], 1)
    ensures (w.c1 == Exp || w.c1 == IntLike) && w.c2 == Colon <==> Makes(a, 47, 2, 1, Base, Plain(2, 1))
  {
    hide Sound, Covers, Steady;
  }

  lemma DocStructLike2(w: Window, a: Action)
    requires w.c0 == StructLike && Padded(w) && a == MatchStructLike(w)
    ensures (w.c1 == Exp || w.c1 == IntLike) && w.c2 != Base && w.c2 != Semi && w.c2 != Lbrace && w.c2 != Colon
      <==> Makes(a, 48, 0, 2, IntLike, [S(0), T(Ch(' ')), S(1)])
    ensures a.NoMatch? || 44 <= a.n <= 48
  {
    hide Sound, Covers, Steady;
  }

  lemma DocStructHead(w: Window, a: Action)
    requires w.c0 == StructHead && Padded(w) && a == MatchBody(w)
    ensures (w.c1 == Decl || w.c1 == Stmt || w.c1 == Function) && w.c2 == Rbrace
      <==> Makes(a, 49, 0, 3, IntLike, [S(0), T(Indent), T(Force), S(1), T(Outdent), T(Force), S(2)])
    ensures w.c1 == Rbrace <==> Makes(a, 50, 0, 2, IntLike, [S(0), T(Ch('\\')), T(Ch(',')), S(1)])
    ensures a.NoMatch? || 49 <= a.n <= 50
  {
    hide Sound, Covers, Steady, FnBody, Joined;
  }

  lemma DocFnDecl(w: Window, a: Action)
    requires w.c0 == FnDecl && Padded(w) && a == MatchBody(w)
    ensures w.c1 == Decl <==> Makes(a, 51, 0, 2, FnDecl, [S(0), T(Force), S(1)])
    ensures w.c1 == Stmt <==> Makes(a, 52, 0, 2, Function, [S(0), T(Outdent), T(Outdent), T(Force), S(1)])
    ensures a.NoMatch? || 51 <= a.n <= 52
  {
    hide Sound, Covers, Steady, StructBody, ThinPair;
  }

  lemma DocFunction(w: Window, a: Action)
    requires w.c0 == Function && Padded(w) && a == MatchBody(w)
    ensures (w.c1 == Stmt || w.c1 == Decl || w.c1 == Function) <==> Makes(a, 53, 0, 2, w.c1, [S(0), T(BigForce), S(1)])
    ensures a.NoMatch? || 53 <= a.n <= 53
  {
    hide Sound, Covers, Steady, FnBody, StructBody, ThinPair;
  }

  lemma DocLbrace(w: Window, a: Action)
    requires w.c0 == Lbrace && Padded(w) && a == MatchLbrace(w)
    ensures w.c1 == Rbrace <==> Makes(a, 54, 0, 2, Stmt, [S(0), T(Ch('\\')), T(Ch(',')), S(1)])
    ensures (w.c1 == Stmt || w.c1 == Decl || w.c1 == Function) && w.c2 == Rbrace
      <==> Makes(a, 55, 0, 3, Stmt, [T(Force), S(0), T(Indent), T(Force), S(1), T(Force), T(Backup), S(2), T(Outdent), T(Force)])
    ensures w.c1 == Exp && w.c2 == Rbrace <==> Makes(a, 56, 0, 3, Exp, Plain(0, 3))
    ensures w.c1 == Exp && w.c2 == Comma && w.c3 == Rbrace <==> Makes(a, 56, 0, 4, Exp, Plain(0, 4))
    ensures a.NoMatch? || 54 <= a.n <= 56
  {
    hide Sound, Covers, Steady;
  }

  lemma DocDoLike(w: Window, a: Action)
    requires w.c0 == DoLike && Padded(w) && a == MatchControl(w)
    ensures w.c1 == Stmt && w.c2 == ElseLike && w.c3 == Semi
      <==> Makes(a, 69, 0, 4, Stmt, [S(0), T(BreakSpace), T(Noop), T(Cancel), S(1), T(Cancel), T(Noop), T(BreakSpace), S(2), S(3)])
    ensures a.NoMatch? || 69 <= a.n <= 69
  {
    hide Sound, Covers, Steady;
  }

  lemma DocIfLike(w: Window, a: Action)
    requires w.c0 == IfLike && Padded(w) && a == MatchControl(w)
    ensures w.c1 == Exp <==> Makes(a, 57, 0, 2, IfClause, [S(0), T(Ch(' ')), S(1)])
    ensures a.NoMatch? || 57 <= a.n <= 57
  {
    hide Sound, Covers, Steady;
  }

  lemma DocForLike(w: Window, a: Action)
    requires w.c0 == ForLike && Padded(w) && a == MatchControl(w)
    ensures w.c1 == Exp <==> Makes(a, 58, 0, 2, ElseLike, [S(0), T(Ch(' ')), S(1)])
    ensures a.NoMatch? || 58 <= a.n <= 58
  {
    hide Sound, Covers, Steady;
  }

  lemma DocElseLike(w: Window, a: Action)
    requires w.c0 == ElseLike && Padded(w) && a == MatchControl(w)
    ensures w.c1 == Lbrace <==> Makes(a, 59, 0, 1, ElseHead, Plain(0, 1))
    ensures w.c1 == Stmt
      <==> Makes(a, 60, 0, 2, Stmt, [T(Force), S(0), T(Indent), T(BreakSpace), S(1), T(Outdent), T(Force)])
    ensures a.NoMatch? || 59 <= a.n <= 60
  {
    hide Sound, Covers, Steady;
  }

  lemma DocIfClause(w: Window, a: Action)
    requires w.c0 == IfClause && Padded(w) && a == MatchConditional(w)
    ensures w.c1 == Lbrace <==> Makes(a, 62, 0, 1, IfHead, Plain(0, 1))
    ensures w.c1 == Stmt && w.c2 == ElseLike && w.c3 == IfLike
      <==> Makes(a, 63, 0, 4, IfLike, [T(Force), S(0), T(Indent), T(BreakSpace), S(1), T(Outdent), T(Force), S(2), T(Ch(' ')), S(3)])
    ensures w.c1 == Stmt && w.c2 == ElseLike && w.c3 != IfLike
      <==> Makes(a, 64, 0, 3, ElseLike, [T(Force), S(0), T(Indent), T(BreakSpace), S(1), T(Outdent), T(Force), S(2)])
    ensures w.c1 == Stmt && w.c2 != ElseLike <==> Makes(a, 65, 0, 1, ElseLike, Plain(0, 1))
    ensures a.NoMatch? || 62 <= a.n <= 65
  {
    hide Sound, Covers, Steady;
  }

  lemma DocIfHead(w: Window, a: Action)
    requires w.c0 == IfHead && Padded(w) && a == MatchConditional(w)
    ensures (w.c1 == Stmt || w.c1 == Exp) && w.c2 == ElseLike && w.c3 == IfLike
      <==> Makes(a, 66, 0, 4, IfLike, [T(Force), S(0), T(BreakSpace), T(Noop), T(Cancel), S(1), T(Force), S(2), T(Ch(' ')), S(3)])
    ensures (w.c1 == Stmt || w.c1 == Exp) && w.c2 == ElseLike && w.c3 != IfLike
      <==> Makes(a, 67, 0, 3, ElseLike, [T(Force), S(0), T(BreakSpace), T(Noop), T(Cancel), S(1), T(Force), S(2)])
    ensures (w.c1 == Stmt || w.c1 == Exp) && w.c2 != ElseLike <==> Makes(a, 68, 0, 1, ElseHead, Plain(0, 1))
    ensures a.NoMatch? || 66 <= a.n <= 68
  {
    hide Sound, Covers, Steady;
  }

  lemma DocElseHead(w: Window, a: Action)
    requires w.c0 == ElseHead && Padded(w) && a == MatchConditional(w)
    ensures (w.c1 == Stmt || w.c1 == Exp)
      <==> Makes(a, 61, 0, 2, Stmt, [T(Force), S(0), T(BreakSpace), T(Noop), T(Cancel), S(1), T(Force)])
    ensures a.NoMatch? || 61 <= a.n <= 61
  {
    hide Sound, Covers, Steady;
  }

  lemma DocCaseLike(w: Window, a: Action)
    requires w.c0 == CaseLike && Padded(w) && a == MatchLabel(w)
    ensures w.c1 == Semi <==> Makes(a, 70, 0, 2, Stmt, Plain(0, 2))
    ensures w.c1 == Colon <==> Makes(a, 71, 0, 2, Tag, Plain(0, 2))
    ensures w.c1 == Exp && w.c2 == Semi <==> Makes(a, 72, 0, 3, Stmt, [S(0), T(Ch(' ')), S(1), S(2)])
    ensures w.c1 == Exp && w.c2 == Colon <==> Makes(a, 73, 0, 3, Tag, [S(0), T(Ch(' ')), S(1), S(2)])
    ensures a.NoMatch? || 70 <= a.n <= 73
  {
    hide Sound, Covers, Steady;
  }

  lemma DocTag(w: Window, a: Action)
    requires w.c0 == Tag && Padded(w) && a == MatchLabel(w)
    ensures w.c1 == Tag <==> Makes(a, 74, 0, 2, Tag, [S(0), T(BreakSpace), S(1)])
    ensures (w.c1 == Stmt || w.c1 == Decl || w.c1 == Function)
      <==> Makes(a, 75, 0, 2, w.c1, [T(Force), T(Backup), S(0), T(BreakSpace), S(1)])
    ensures a.NoMatch? || 74 <= a.n <= 75
  {
    hide Sound, Covers, Steady;
  }

  lemma DocStmt(w: Window, a: Action, forceLines: bool)
    requires w.c0 == Stmt && Padded(w) && a == MatchStmt(w, forceLines)
    ensures w.c1 == Stmt <==> Makes(a, 76, 0, 2, Stmt, [S(0), T(if forceLines then Force else BreakSpace), S(1)])
    ensures (w.c1 == Decl || w.c1 == Function) <==> Makes(a, 76, 0, 2, w.c1, [S(0), T(BigForce), S(1)])
    ensures a.NoMatch? || 76 <= a.n <= 76
  {
    hide Sound, Covers, Steady;
  }

  lemma DocSemi(w: Window, a: Action, forceLines: bool)
    requires w.c0 == Semi && Padded(w) && a == MatchStmt(w, forceLines)
    ensures Makes(a, 77, 0, 1, Stmt, [T(Ch(' ')), S(0)])
  {
    hide Sound, Covers, Steady;
  }

  lemma DocLproc(w: Window, a: Action)
    requires w.c0 == Lproc && Padded(w) && a == MatchSpecial(w)
    ensures (w.c1 == IfLike || w.c1 == ElseLike || w.c1 == DefineLike) <==> Makes(a, 78, 0, 2, Lproc, Plain(0, 2))
    ensures w.c1 == Rproc <==> Makes(a, 79, 0, 2, Insert, [T(Inserted), S(0), S(1)])
    ensures (w.c1 == Exp || w.c1 == Function) && w.c2 == Rproc
      <==> Makes(a, 80, 0, 3, Insert, [T(Inserted), S(0), T(Ch(' ')), S(1), S(2)])
    ensures w.c1 == Exp && w.c2 == Exp && w.c3 == Rproc
      <==> Makes(a, 80, 0, 4, Insert, [T(Inserted), S(0), T(Ch(' ')), S(1), T(Ch(' ')), T(Ch('\\')), T(Ch('5')), S(2), S(3)])
    ensures a.NoMatch? || 78 <= a.n <= 80
  {
    hide Sound, Covers, Steady, PairForce;
  }

  lemma DocSectionScrap(w: Window, a: Action)
    requires w.c0 == SectionScrap && Padded(w) && a == MatchSpecial(w)
    ensures w.c1 == Semi <==> Makes(a, 81, 0, 2, Stmt, [S(0), S(1), T(Force)])
    ensures w.c1 != Semi <==> Makes(a, 82, 0, 1, Exp, Plain(0, 1))
    ensures a.NoMatch? || 81 <= a.n <= 82
  {
    hide Sound, Covers, Steady, InsertedLine, InsertedPair, InsertedPairLine;
  }

  lemma DocInsert(w: Window, a: Action)
    requires w.c0 == Insert && Padded(w) && a == MatchAngle(w)
    ensures w.c1 != Zero <==> Makes(a, 83, 0, 2, w.c1, Plain(0, 2))
    ensures a.NoMatch? || 83 <= a.n <= 83
  {
    hide Sound, Covers, Steady;
  }

  lemma DocPrelangle(w: Window, a: Action)
    requires w.c0 == Prelangle && Padded(w) && a == MatchAngle(w)
    ensures Makes(a, 84, 0, 1, Binop, [T(Ch('<'))])
  {
    hide Sound, Covers, Steady;
  }

  lemma DocPrerangle(w: Window, a: Action)
    requires w.c0 == Prerangle && Padded(w) && a == MatchAngle(w)
    ensures Makes(a, 85, 0, 1, Binop, [T(Ch('>'))])
  {
    hide Sound, Covers, Steady;
  }

  lemma DocLangle(w: Window, a: Action)
    requires w.c0 == Langle && Padded(w) && a == MatchClass(w)
    ensures w.c1 == Exp && w.c2 == Prerangle <==> Makes(a, 86, 0, 3, Cast, Plain(0, 3))
    ensures w.c1 == Prerangle <==> Makes(a, 87, 0, 2, Cast, [S(0), T(Ch('\\')), T(Ch(',')), S(1)])
    ensures (w.c1 == DeclHead || w.c1 == IntLike) && w.c2 == Prerangle <==> Makes(a, 88, 0, 3, Cast, Plain(0, 3))
    ensures (w.c1 == DeclHead || w.c1 == IntLike) && w.c2 == Comma
      <==> Makes(a, 89, 0, 3, Langle, [S(0), S(1), S(2), T(Opt), T(Ch('9'))])
    ensures a.NoMatch? || 86 <= a.n <= 89
  {
    hide Sound, Covers, Steady;
  }

  lemma DocPublicLike(w: Window, a: Action)
    requires w.c0 == PublicLike && Padded(w) && a == MatchClass(w)
    ensures w.c1 == Colon <==> Makes(a, 90, 0, 2, Tag, Plain(0, 2))
    ensures w.c1 != Colon <==> Makes(a, 91, 0, 1, IntLike, Plain(0, 1))
    ensures a.NoMatch? || 90 <= a.n <= 91
  {
    hide Sound, Covers, Steady;
  }

  lemma DocColcol(w: Window, a: Action)
    requires w.c0 == Colcol && Padded(w) && a == MatchClass(w)
    ensures (w.c1 == Exp || w.c1 == IntLike) <==> Makes(a, 92, 0, 2, w.c1, Plain(0, 2))
    ensures a.NoMatch? || 92 <= a.n <= 92
  {
    hide Sound, Covers, Steady;
  }

  lemma DocNewLike1(w: Window, a: Action)
    requires w.c0 == NewLike && Padded(w) && a == MatchNew(w)
    ensures w.c1 == Exp || (w.c1 == RawInt && w.c2 != Prelangle && w.c2 != Langle)
      <==> Makes(a, 93, 0, 2, NewLike, [S(0), T(Ch(' ')), S(1)])
    ensures (w.c1 == RawUnorbin || w.c1 == Colcol) <==> Makes(a, 94, 0, 2, NewLike, Plain(0, 2))
    ensures w.c1 == Cast <==> Makes(a, 95, 0, 2, Exp, Plain(0, 2))
  {
    hide Sound, Covers, Steady;
  }

  lemma DocNewLike2(w: Window, a: Action)
    requires w.c0 == NewLike && Padded(w) && a == MatchNew(w)
    ensures w.c1 != Lpar && w.c1 != RawInt && w.c1 != StructLike && w.c1 != Exp && w.c1 != RawUnorbin && w.c1 != Colcol && w.c1 != Cast
      <==> Makes(a, 96, 0, 1, Exp, Plain(0, 1))
    ensures a.NoMatch? || 93 <= a.n <= 96
  {
    hide Sound, Covers, Steady;
  }

  lemma DocOperatorLike(w: Window, a: Action)
    requires w.c0 == OperatorLike && Padded(w) && a == MatchNew(w)
    ensures (w.c1 == Binop || w.c1 == Unop || w.c1 == Unorbinop) && w.c2 != Binop
      <==> Makes(a, 97, 0, 2, Exp, [S(0), T(Ch('{')), S(1), T(Ch('}'))])
    ensures (w.c1 == NewLike || w.c1 == SizeofLike) <==> Makes(a, 98, 0, 2, Exp, [S(0), T(Ch(' ')), S(1)])
    ensures w.c1 != Binop && w.c1 != Unop && w.c1 != Unorbinop && w.c1 != NewLike && w.c1 != SizeofLike
      <==> Makes(a, 99, 0, 1, NewLike, Plain(0, 1))
    ensures a.NoMatch? || 97 <= a.n <= 99
  {
    hide Sound, Covers, Steady;
  }

  lemma DocCatchLike(w: Window, a: Action)
    requires w.c0 == CatchLike && Padded(w) && a == MatchBase(w)
    ensures (w.c1 == Cast || w.c1 == Exp) <==> Makes(a, 100, 0, 2, FnDecl, [S(0), S(1), T(Indent), T(Indent)])
    ensures a.NoMatch? || 100 <= a.n <= 100
  {
    hide Sound, Covers, Steady;
  }

  lemma DocBase(w: Window, a: Action)
    requires w.c0 == Base && Padded(w) && a == MatchBase(w)
    ensures w.c1 == PublicLike && w.c2 == Exp && w.c3 == Comma
      <==> Makes(a, 101, 0, 4, Base, [S(0), S(1), T(Ch(' ')), S(2), S(3)])
    ensures w.c1 == PublicLike && w.c2 == Exp && w.c3 != Comma <==> Makes(a, 102, 1, 2, IntLike, [S(1), T(Ch(' ')), S(2)])
    ensures a.NoMatch? || 101 <= a.n <= 102
  {
    hide Sound, Covers, Steady;
  }

  lemma DocRawRpar(w: Window, a: Action)
    requires w.c0 == RawRpar && Padded(w) && a == MatchRaw(w)
    ensures w.c1 == ConstLike && (w.c2 == Semi || w.c2 == Lbrace || w.c2 == Comma || w.c2 == Binop || w.c2 == ConstLike)
      <==> Makes(a, 103, 0, 2, RawRpar, [S(0), T(Ch(' ')), S(1)])
    ensures !(w.c1 == ConstLike && (w.c2 == Semi || w.c2 == Lbrace || w.c2 == Comma || w.c2 == Binop || w.c2 == ConstLike))
      <==> Makes(a, 104, 0, 1, Rpar, Plain(0, 1))
    ensures a.NoMatch? || 103 <= a.n <= 104
  {
    hide Sound, Covers, Steady;
  }

  lemma DocRawUnorbin(w: Window, a: Action)
    requires w.c0 == RawUnorbin && Padded(w) && a == MatchRaw(w)
    ensures w.c1 == ConstLike <==> Makes(a, 105, 0, 2, RawUnorbin, [S(0), S(1), T(Ch('\\')), T(Ch(' '))])
    ensures w.c1 != ConstLike <==> Makes(a, 106, 0, 1, Unorbinop, Plain(0, 1))
    ensures a.NoMatch? || 105 <= a.n <= 106
  {
    hide Sound, Covers, Steady;
  }

  lemma DocConstLike(w: Window, a: Action)
    requires w.c0 == ConstLike && Padded(w) && a == MatchRawInt(w)
    ensures Makes(a, 107, 0, 1, IntLike, Plain(0, 1))
  {
    hide Sound, Covers, Steady;
  }

  lemma DocRawInt(w: Window, a: Action)
    requires w.c0 == RawInt && Padded(w) && a == MatchRawInt(w)
    ensures w.c1 == Lpar <==> Makes(a, 108, 0, 1, Exp, Plain(0, 1))
    ensures w.c1 != Lpar <==> Makes(a, 109, 0, 1, IntLike, Plain(0, 1))
    ensures a.NoMatch? || 108 <= a.n <= 109
  {
    hide Sound, Covers, Steady;
  }

  /** Before the switch: ends of macro arguments, and inserts at distance one to three. */
  lemma DocMatch(w: Window, forceLines: bool, a: Action)
    requires Padded(w) && a == Match(w, forceLines)
    ensures var argument := w.c1 == EndArg && w.c0 !in {Semi, RawInt, RawUnorbin, RawRpar, ConstLike};
      if argument && w.c0 == BeginArg then Makes(a, 110, 0, 2, Exp, Plain(0, 2))
      else if argument then Makes(a, 111, 0, 2, EndArg, Plain(0, 2))
      else if w.c1 == Insert then Makes(a, 0, 0, 2, w.c0, Plain(0, 2))
      else if w.c2 == Insert then Makes(a, 0, 1, 2, w.c1, Plain(1, 2))
      else if w.c3 == Insert then Makes(a, 0, 2, 2, w.c2, Plain(2, 2))
      else a == MatchCategory(w, forceLines)
  {
    hide Sound, Covers, Steady, MatchCategory;
  }

  /** The switch: each category has its productions, those not listed have none. */
  lemma DocCategory(w: Window, forceLines: bool)
    requires Padded(w)
    ensures var a := MatchCategory(w, forceLines);
      match w.c0
      case Exp => a == MatchExp(w)
      case Lpar => a == MatchLpar(w)
      case Question | Unop | Unorbinop | Binop | Cast | SizeofLike => a == MatchOperator(w)
      case IntLike => a == MatchIntLike(w)
      case DeclHead => a == MatchDeclHead(w)
      case Decl | TypedefLike => a == MatchDeclaration(w)
      case StructLike => a == MatchStructLike(w)
      case StructHead | FnDecl | Function => a == MatchBody(w)
      case Lbrace => a == MatchLbrace(w)
      case DoLike | IfLike | ForLike | ElseLike => a == MatchControl(w)
      case IfClause | IfHead | ElseHead => a == MatchConditional(w)
      case CaseLike | Tag => a == MatchLabel(w)
      case Stmt | Semi => a == MatchStmt(w, forceLines)
      case Lproc | SectionScrap => a == MatchSpecial(w)
      case Insert | Prelangle | Prerangle => a == MatchAngle(w)
      case Langle | PublicLike | Colcol => a == MatchClass(w)
      case NewLike | OperatorLike => a == MatchNew(w)
      case CatchLike | Base => a == MatchBase(w)
      case RawRpar | RawUnorbin => a == MatchRaw(w)
      case ConstLike | RawInt => a == MatchRawInt(w)
      case _ => a.NoMatch?
  {
    hide Sound, Covers, Steady;
  }
}
