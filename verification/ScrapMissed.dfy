/**
 Where the reduction stops. After a production CWEAVE backs up by a distance d, which is to be
 such that no production is missed: left of pp none applies.
 */
module ScrapMissed {
  import opened ScrapGrammar
  import opened ScrapText
  import opened ScrapRewrite
  import opened ScrapInvariants

  /** A production in short: its number, the run it combines, the new category, and the distance. */
  datatype Effect = Rests | Does(n: nat, at: nat, k: nat, cat: Cat, d: int)

  function EffectOf(a: Action): Effect {
    match a
    case NoMatch => Rests
    case Relabel(n, at, c, d) => Does(n, at, 1, c, d)
    case Rewrite(n, at, k, c, d, _, _) => Does(n, at, k, c, d)
  }

  /** Only these productions call `make_reserved`. */
  predicate Reserves(a: Action) {
    a.Rewrite? && a.reserve >= 0 ==> a.n in {42, 45, 46}
  }

  function OnExp(w: Window): Effect {
    if w.c1 in {Lbrace, IntLike, Decl} then Does(1, 0, 1, FnDecl, 0)
    else if w.c1 == Base then
      if w.c2 == IntLike && w.c3 == Comma then Does(8, 1, 3, Base, 0)
      else if w.c2 == IntLike && w.c3 == Lbrace then Does(9, 0, 3, Exp, -1)
      else Rests
    else if w.c1 == Unop then Does(2, 0, 2, Exp, -2)
    else if w.c1 in {Binop, Unorbinop} && w.c2 == Exp then Does(3, 0, 3, Exp, -2)
    else if w.c1 == Comma && w.c2 == Exp then Does(4, 0, 3, Exp, -2)
    else if w.c1 in {Exp, Cast} then Does(5, 0, 2, Exp, -2)
    else if w.c1 == Semi then Does(6, 0, 2, Stmt, -1)
    else if w.c1 == Colon then Does(7, 0, 2, Tag, 0)
    else if w.c1 == Rbrace then Does(10, 0, 1, Stmt, -1)
    else Rests
  }

  function OnLpar(w: Window): Effect {
    if w.c1 in {Exp, Unorbinop} && w.c2 == Rpar then Does(11, 0, 3, Exp, -2)
    else if w.c1 == Rpar then Does(12, 0, 2, Exp, -2)
    else if w.c1 in {DeclHead, IntLike, Exp} && w.c2 == Rpar then Does(13, 0, 3, Cast, -2)
    else if w.c1 in {DeclHead, IntLike, Exp} && w.c2 == Comma then Does(14, 0, 3, Lpar, 0)
    else if w.c1 in {Stmt, Decl} then Does(15, 0, 2, Lpar, 0)
    else Rests
  }

  function OnOperator(w: Window): Effect {
    match w.c0
    case Question =>
      if w.c1 == Exp && w.c2 == Colon then Does(16, 0, 3, Binop, -2) else Rests
    case Unop =>
      if w.c1 in {Exp, IntLike} then Does(17, 0, 2, w.c1, -2) else Rests
    case Unorbinop =>
      if w.c1 in {Exp, IntLike} then Does(18, 0, 2, w.c1, -2)
      else if w.c1 == Binop then Does(19, 0, 2, Binop, -1)
      else Rests
    case Binop =>
      if w.c1 == Binop then Does(20, 0, 2, Binop, -1) else Rests
    case Cast =>
      if w.c1 == Exp then Does(21, 0, 2, Exp, -2) else if w.c1 == Semi then Does(22, 0, 1, Exp, -2) else Rests
    case SizeofLike =>
      if w.c1 == Cast then Does(23, 0, 2, Exp, -2) else if w.c1 == Exp then Does(24, 0, 2, Exp, -2) else Rests
    case _ => Rests
  }

  function OnIntLike(w: Window): Effect {
    if w.c1 in {IntLike, StructLike} then Does(25, 0, 2, w.c1, -2)
    else if w.c1 == Exp && w.c2 in {RawInt, StructLike} then Does(26, 0, 2, IntLike, -2)
    else if w.c1 in {Exp, Unorbinop, Semi} then Does(27, 0, 1, DeclHead, -1)
    else if w.c1 == Colon then Does(28, 0, 1, DeclHead, 0)
    else if w.c1 == Prelangle then Does(29, 1, 1, Langle, 1)
    else if w.c1 == Colcol && w.c2 in {Exp, IntLike} then Does(30, 0, 3, w.c2, -2)
    else if w.c1 == Cast && w.c2 == Lbrace then Does(31, 0, 2, FnDecl, 1)
    else if w.c1 == Cast then Does(32, 0, 2, IntLike, -2)
    else Rests
  }

  function OnDeclHead(w: Window): Effect {
    if w.c1 == Comma then Does(33, 0, 2, DeclHead, -1)
    else if w.c1 == Unorbinop then Does(34, 0, 2, DeclHead, -1)
    else if w.c1 == Exp && w.c2 != Lpar && w.c2 != Exp then Does(35, 0, 2, DeclHead, -1)
    else if w.c1 in {Binop, Colon} && w.c2 == Exp && w.c3 in {Comma, Semi, Rpar} then Does(36, 0, 3, DeclHead, -1)
    else if w.c1 == Cast then Does(37, 0, 2, DeclHead, -1)
    else if w.c1 in {Lbrace, Decl} || (w.c1 == IntLike && w.c2 != Colcol) then Does(38, 0, 1, FnDecl, 0)
    else if w.c1 == Semi then Does(39, 0, 2, Decl, -1)
    else Rests
  }

  function OnDeclaration(w: Window): Effect {
    match w.c0
    case Decl =>
      if w.c1 == Decl then Does(40, 0, 2, Decl, -1)
      else if w.c1 in {Stmt, Function} then Does(41, 0, 2, w.c1, -1)
      else Rests
    case TypedefLike =>
      if w.c1 == DeclHead && ((w.c2 == Exp && w.c3 != Lpar && w.c3 != Exp) || w.c2 == IntLike) then Does(42, 1, 2, DeclHead, 0)
      else if w.c1 == DeclHead && w.c2 == Semi then Does(43, 0, 3, Decl, -1)
      else Rests
    case _ => Rests
  }

  function OnBody(w: Window): Effect {
    match w.c0
    case StructHead =>
      if w.c1 in {Decl, Stmt, Function} && w.c2 == Rbrace then Does(49, 0, 3, IntLike, -2)
      else if w.c1 == Rbrace then Does(50, 0, 2, IntLike, -2)
      else Rests
    case FnDecl =>
      if w.c1 == Decl then Does(51, 0, 2, FnDecl, 0) else if w.c1 == Stmt then Does(52, 0, 2, Function, -1) else Rests
    case Function =>
      if w.c1 in {Function, Decl, Stmt} then Does(53, 0, 2, w.c1, -1) else Rests
    case _ => Rests
  }

  function OnStructLike(w: Window): Effect {
    if w.c1 == Lbrace then Does(44, 0, 2, StructHead, 0)
    else if w.c1 in {Exp, IntLike} then
      if w.c2 == Semi then Does(45, 0, 2, DeclHead, 0)
      else if w.c2 == Lbrace then Does(46, 0, 3, StructHead, 0)
      else if w.c2 == Colon then Does(47, 2, 1, Base, -1)
      else if w.c2 != Base then Does(48, 0, 2, IntLike, -2)
      else Rests
    else Rests
  }

  function OnLbrace(w: Window): Effect {
    if w.c1 == Rbrace then Does(54, 0, 2, Stmt, -1)
    else if w.c1 in {Stmt, Decl, Function} && w.c2 == Rbrace then Does(55, 0, 3, Stmt, -1)
    else if w.c1 == Exp && w.c2 == Rbrace then Does(56, 0, 3, Exp, -2)
    else if w.c1 == Exp && w.c2 == Comma && w.c3 == Rbrace then Does(56, 0, 4, Exp, -2)
    else Rests
  }

  function OnControl(w: Window): Effect {
    match w.c0
    case DoLike =>
      if w.c1 == Stmt && w.c2 == ElseLike && w.c3 == Semi then Does(69, 0, 4, Stmt, -1) else Rests
    case IfLike =>
      if w.c1 == Exp then Does(57, 0, 2, IfClause, 0) else Rests
    case ForLike =>
      if w.c1 == Exp then Does(58, 0, 2, ElseLike, -2) else Rests
    case ElseLike =>
      if w.c1 == Lbrace then Does(59, 0, 1, ElseHead, 0) else if w.c1 == Stmt then Does(60, 0, 2, Stmt, -1) else Rests
    case _ => Rests
  }

  function OnConditional(w: Window): Effect {
    match w.c0
    case IfClause =>
      if w.c1 == Lbrace then Does(62, 0, 1, IfHead, 0)
      else if w.c1 == Stmt then
        if w.c2 == ElseLike && w.c3 == IfLike then Does(63, 0, 4, IfLike, 0)
        else if w.c2 == ElseLike then Does(64, 0, 3, ElseLike, 0)
        else Does(65, 0, 1, ElseLike, 0)
      else Rests
    case IfHead =>
      if w.c1 in {Stmt, Exp} then
        if w.c2 == ElseLike && w.c3 == IfLike then Does(66, 0, 4, IfLike, 0)
        else if w.c2 == ElseLike then Does(67, 0, 3, ElseLike, 0)
        else Does(68, 0, 1, ElseHead, 0)
      else Rests
    case ElseHead =>
      if w.c1 in {Stmt, Exp} then Does(61, 0, 2, Stmt, -1) else Rests
    case _ => Rests
  }

  function OnLabel(w: Window): Effect {
    match w.c0
    case CaseLike =>
      if w.c1 == Semi then Does(70, 0, 2, Stmt, -1)
      else if w.c1 == Colon then Does(71, 0, 2, Tag, -1)
      else if w.c1 == Exp && w.c2 == Semi then Does(72, 0, 3, Stmt, -1)
      else if w.c1 == Exp && w.c2 == Colon then Does(73, 0, 3, Tag, -1)
      else Rests
    case Tag =>
      if w.c1 == Tag then Does(74, 0, 2, Tag, -1) else if w.c1 in {Stmt, Decl, Function} then Does(75, 0, 2, w.c1, -1) else Rests
    case _ => Rests
  }

  function OnStmt(w: Window): Effect {
    match w.c0
    case Stmt =>
      if w.c1 in {Stmt, Decl, Function} then Does(76, 0, 2, w.c1, -1) else Rests
    case Semi =>
      Does(77, 0, 1, Stmt, -1)
    case _ => Rests
  }

  function OnSpecial(w: Window): Effect {
    if w.c1 == Semi then Does(81, 0, 2, Stmt, -2) else Does(82, 0, 1, Exp, -2)
  }

  function OnAngle(w: Window): Effect {
    match w.c0
    case Prelangle =>
      Does(84, 0, 1, Binop, -2)
    case Prerangle =>
      Does(85, 0, 1, Binop, -2)
    case _ => Rests
  }

  function OnClass(w: Window): Effect {
    match w.c0
    case Langle =>
      if w.c1 == Exp && w.c2 == Prerangle then Does(86, 0, 3, Cast, -1)
      else if w.c1 == Prerangle then Does(87, 0, 2, Cast, -1)
      else if w.c1 in {DeclHead, IntLike} && w.c2 == Prerangle then Does(88, 0, 3, Cast, -1)
      else if w.c1 in {DeclHead, IntLike} && w.c2 == Comma then Does(89, 0, 3, Langle, 0)
      else Rests
    case PublicLike =>
      if w.c1 == Colon then Does(90, 0, 2, Tag, -1) else Does(91, 0, 1, IntLike, -2)
    case Colcol =>
      if w.c1 in {Exp, IntLike} then Does(92, 0, 2, w.c1, -2) else Rests
    case _ => Rests
  }

  function OnNew(w: Window): Effect {
    match w.c0
    case NewLike =>
      if w.c1 == Exp || (w.c1 == RawInt && w.c2 != Prelangle && w.c2 != Langle) then Does(93, 0, 2, NewLike, 0)
      else if w.c1 in {RawUnorbin, Colcol} then Does(94, 0, 2, NewLike, 0)
      else if w.c1 == Cast then Does(95, 0, 2, Exp, -2)
      else if w.c1 !in {Lpar, RawInt, StructLike} then Does(96, 0, 1, Exp, -2)
      else Rests
    case OperatorLike =>
      if w.c1 in {Binop, Unop, Unorbinop} then
        if w.c2 == Binop then Rests else Does(97, 0, 2, Exp, -2)
      else if w.c1 in {NewLike, SizeofLike} then Does(98, 0, 2, Exp, -2)
      else Does(99, 0, 1, NewLike, 0)
    case _ => Rests
  }

  function OnBase(w: Window): Effect {
    match w.c0
    case CatchLike =>
      if w.c1 in {Cast, Exp} then Does(100, 0, 2, FnDecl, 0) else Rests
    case Base =>
      if w.c1 == PublicLike && w.c2 == Exp then
        if w.c3 == Comma then Does(101, 0, 4, Base, 0) else Does(102, 1, 2, IntLike, -1)
      else Rests
    case _ => Rests
  }

  function OnRaw(w: Window): Effect {
    match w.c0
    case RawRpar =>
      if w.c1 == ConstLike && w.c2 in {Semi, Lbrace, Comma, Binop, ConstLike} then Does(103, 0, 2, RawRpar, 0)
      else Does(104, 0, 1, Rpar, -3)
    case RawUnorbin =>
      if w.c1 == ConstLike then Does(105, 0, 2, RawUnorbin, 0) else Does(106, 0, 1, Unorbinop, -2)
    case _ => Rests
  }

  function OnRawInt(w: Window): Effect {
    match w.c0
    case ConstLike =>
      Does(107, 0, 1, IntLike, -2)
    case RawInt =>
      if w.c1 == Lpar then Does(108, 0, 1, Exp, -2) else Does(109, 0, 1, IntLike, -3)
    case _ => Rests
  }

  /** What production applies to these four categories, if inserts and macro arguments are away. */
  function On(w: Window): Effect {
    match w.c0
    case Exp => OnExp(w)
    case Lpar => OnLpar(w)
    case Question | Unop | Unorbinop | Binop | Cast | SizeofLike => OnOperator(w)
    case IntLike => OnIntLike(w)
    case DeclHead => OnDeclHead(w)
    case Decl | TypedefLike => OnDeclaration(w)
    case StructHead | FnDecl | Function => OnBody(w)
    case StructLike => OnStructLike(w)
    case Lbrace => OnLbrace(w)
    case DoLike | IfLike | ForLike | ElseLike => OnControl(w)
    case IfClause | IfHead | ElseHead => OnConditional(w)
    case CaseLike | Tag => OnLabel(w)
    case Stmt | Semi => OnStmt(w)
    case SectionScrap => OnSpecial(w)
    case Prelangle | Prerangle => OnAngle(w)
    case Langle | PublicLike | Colcol => OnClass(w)
    case NewLike | OperatorLike => OnNew(w)
    case CatchLike | Base => OnBase(w)
    case RawRpar | RawUnorbin => OnRaw(w)
    case ConstLike | RawInt => OnRawInt(w)
    case _ => Rests
  }

  lemma {:induction false} DoesExpMore(w: Window)
    requires w.c0 == Exp && Padded(w) && w.c1 != Base && w.c1 !in {Lbrace, IntLike, Decl}
    ensures EffectOf(MatchExpMore(w)) == OnExp(w) && Reserves(MatchExpMore(w))
  {
    hide Sound, Covers, Steady, Padded, Pair, Triple, CommaList;
  }

  lemma {:induction false} DoesExp(w: Window)
    requires w.c0 == Exp && Padded(w)
    ensures EffectOf(MatchExp(w)) == OnExp(w) && Reserves(MatchExp(w))
  {
    hide Sound, Covers, Steady, Padded, Indented, MatchExpMore, BaseList, SpacedTriple;
    if w.c1 != Base && w.c1 !in {Lbrace, IntLike, Decl} { DoesExpMore(w); }
  }

  lemma {:induction false} DoesLpar(w: Window)
    requires w.c0 == Lpar && Padded(w)
    ensures EffectOf(MatchLpar(w)) == OnLpar(w) && Reserves(MatchLpar(w))
  {
    hide Sound, Covers, Steady, Padded, Triple, ThinPair, OptTriple, PairSpace;
  }

  lemma {:induction false} DoesOperator(w: Window)
    requires w.c0 in {Question, Unop, Unorbinop, Binop, Cast, SizeofLike} && Padded(w)
    ensures EffectOf(MatchOperator(w)) == OnOperator(w) && Reserves(MatchOperator(w))
  {
    hide Sound, Covers, Steady, Padded, Pair, Triple, Joined, PrefixOp, RelOp, RelPair;
  }

  lemma {:induction false} DoesIntLike(w: Window)
    requires w.c0 == IntLike && Padded(w)
    ensures EffectOf(MatchIntLike(w)) == OnIntLike(w) && Reserves(MatchIntLike(w))
  {
    hide Sound, Covers, Steady, Padded, Pair, Triple, Joined, PairIndent, ThenSpace, Alone;
  }

  lemma {:induction false} DoesDeclHead(w: Window)
    requires w.c0 == DeclHead && Padded(w)
    ensures EffectOf(MatchDeclHead(w)) == OnDeclHead(w) && Reserves(MatchDeclHead(w))
  {
    hide Sound, Covers, Steady, Padded, Pair, Triple, Indented, PairSpace, BracedSecond;
  }

  lemma {:induction false} DoesDeclaration(w: Window)
    requires w.c0 in {Decl, TypedefLike} && Padded(w)
    ensures EffectOf(MatchDeclaration(w)) == OnDeclaration(w) && Reserves(MatchDeclaration(w))
  {
    hide Sound, Covers, Steady, Padded, Pair, Joined, SpacedThenPlain;
  }

  lemma {:induction false} DoesBody(w: Window)
    requires w.c0 in {StructHead, FnDecl, Function} && Padded(w)
    ensures EffectOf(MatchBody(w)) == OnBody(w) && Reserves(MatchBody(w))
  {
    hide Sound, Covers, Steady, Padded, Joined, ThinPair, StructBody, FnBody;
  }

  lemma {:induction false} DoesStructLike(w: Window)
    requires w.c0 == StructLike && Padded(w)
    ensures EffectOf(MatchStructLike(w)) == OnStructLike(w) && Reserves(MatchStructLike(w))
  {
    hide Sound, Covers, Steady, Padded, Joined, SpacedTriple;
  }

  lemma {:induction false} DoesLbrace(w: Window)
    requires w.c0 == Lbrace && Padded(w)
    ensures EffectOf(MatchLbrace(w)) == OnLbrace(w) && Reserves(MatchLbrace(w))
  {
    hide Sound, Covers, Steady, Padded, Triple, Quadruple, ThinPair, Block;
  }

  lemma {:induction false} DoesControl(w: Window)
    requires w.c0 in {DoLike, IfLike, ForLike, ElseLike} && Padded(w)
    ensures EffectOf(MatchControl(w)) == OnControl(w) && Reserves(MatchControl(w))
  {
    hide Sound, Covers, Steady, Padded, Joined, DoWhile, Clause;
  }

  lemma {:induction false} DoesConditional(w: Window)
    requires w.c0 in {IfClause, IfHead, ElseHead} && Padded(w)
    ensures EffectOf(MatchConditional(w)) == OnConditional(w) && Reserves(MatchConditional(w))
  {
    hide Sound, Covers, Steady, Padded, BracedClause, ClauseElseIf, ClauseElse, BracedElseIf, BracedElse;
  }

  lemma {:induction false} DoesLabel(w: Window)
    requires w.c0 in {CaseLike, Tag} && Padded(w)
    ensures EffectOf(MatchLabel(w)) == OnLabel(w) && Reserves(MatchLabel(w))
  {
    hide Sound, Covers, Steady, Padded, Pair, Joined, SpacedThenPlain, Labelled;
  }

  lemma {:induction false} DoesStmt(w: Window, f: bool)
    requires w.c0 in {Stmt, Semi} && Padded(w)
    ensures EffectOf(MatchStmt(w, f)) == OnStmt(w) && Reserves(MatchStmt(w, f))
  {
    hide Sound, Covers, Steady, Padded, Joined, SpaceFirst;
  }

  lemma {:induction false} DoesSpecial(w: Window)
    requires w.c0 == SectionScrap && Padded(w)
    ensures EffectOf(MatchSpecial(w)) == OnSpecial(w) && Reserves(MatchSpecial(w))
  {
    hide Sound, Covers, Steady, Padded, PairForce;
  }

  lemma {:induction false} DoesAngle(w: Window)
    requires w.c0 in {Prelangle, Prerangle} && Padded(w)
    ensures EffectOf(MatchAngle(w)) == OnAngle(w) && Reserves(MatchAngle(w))
  {
    hide Sound, Covers, Steady, Padded;
  }

  lemma {:induction false} DoesClass(w: Window)
    requires w.c0 in {Langle, PublicLike, Colcol} && Padded(w)
    ensures EffectOf(MatchClass(w)) == OnClass(w) && Reserves(MatchClass(w))
  {
    hide Sound, Covers, Steady, Padded, Pair, Triple, ThinPair, OptTriple;
  }

  lemma {:induction false} DoesNew(w: Window)
    requires w.c0 in {NewLike, OperatorLike} && Padded(w)
    ensures EffectOf(MatchNew(w)) == OnNew(w) && Reserves(MatchNew(w))
  {
    hide Sound, Covers, Steady, Padded, Pair, Joined, BracedSecond;
  }

  lemma {:induction false} DoesBase(w: Window)
    requires w.c0 in {CatchLike, Base} && Padded(w)
    ensures EffectOf(MatchBase(w)) == OnBase(w) && Reserves(MatchBase(w))
  {
    hide Sound, Covers, Steady, Padded, Joined, PairIndent, BasePublic;
  }

  lemma {:induction false} DoesRaw(w: Window)
    requires w.c0 in {RawRpar, RawUnorbin} && Padded(w)
    ensures EffectOf(MatchRaw(w)) == OnRaw(w) && Reserves(MatchRaw(w))
  {
    hide Sound, Covers, Steady, Padded, Joined, PairControlSpace;
  }

  lemma {:induction false} DoesRawInt(w: Window)
    requires w.c0 in {ConstLike, RawInt} && Padded(w)
    ensures EffectOf(MatchRawInt(w)) == OnRawInt(w) && Reserves(MatchRawInt(w))
  {
    hide Sound, Covers, Steady, Padded;
  }

  lemma {:induction false} DoesCategory(w: Window, f: bool)
    requires Padded(w) && w.c0 !in {Insert, Lproc}
    ensures EffectOf(MatchCategory(w, f)) == On(w) && Reserves(MatchCategory(w, f))
  {
    hide Sound, Padded, EffectOf, Reserves,
      OnExp, OnLpar, OnOperator, OnIntLike, OnDeclHead, OnDeclaration, OnBody, OnStructLike, OnLbrace, OnControl,
      OnConditional, OnLabel, OnStmt, OnSpecial, OnAngle, OnClass, OnNew, OnBase, OnRaw, OnRawInt,
      MatchExp, MatchLpar, MatchOperator, MatchIntLike, MatchDeclHead, MatchDeclaration, MatchBody, MatchStructLike,
      MatchLbrace, MatchControl, MatchConditional, MatchLabel, MatchStmt, MatchSpecial, MatchAngle, MatchClass, MatchNew,
      MatchBase, MatchRaw, MatchRawInt;
    match w.c0
    case Exp => DoesExp(w);
    case Lpar => DoesLpar(w);
    case Question | Unop | Unorbinop | Binop | Cast | SizeofLike => DoesOperator(w);
    case IntLike => DoesIntLike(w);
    case DeclHead => DoesDeclHead(w);
    case Decl | TypedefLike => DoesDeclaration(w);
    case StructHead | FnDecl | Function => DoesBody(w);
    case StructLike => DoesStructLike(w);
    case Lbrace => DoesLbrace(w);
    case DoLike | IfLike | ForLike | ElseLike => DoesControl(w);
    case IfClause | IfHead | ElseHead => DoesConditional(w);
    case CaseLike | Tag => DoesLabel(w);
    case Stmt | Semi => DoesStmt(w, f);
    case SectionScrap => DoesSpecial(w);
    case Prelangle | Prerangle => DoesAngle(w);
    case Langle | PublicLike | Colcol => DoesClass(w);
    case NewLike | OperatorLike => DoesNew(w);
    case CatchLike | Base => DoesBase(w);
    case RawRpar | RawUnorbin => DoesRaw(w);
    case ConstLike | RawInt => DoesRawInt(w);
    case _ => NothingDoes();
  }

  lemma NothingDoes()
    ensures EffectOf(NoMatch) == Rests && Reserves(NoMatch)
  {
  }

  // ----- What can be missed -----

  /** Neither an insert nor part of a preprocessor line, and not the end of a macro argument. */
  predicate Simple(c: Cat) {
    c !in {Insert, Lproc, Rproc, EndArg}
  }

  /** The four categories from pp on, after a production has made y of w. */
  predicate Follows(e: Effect, w: Window, y: Window) {
    && e.Does?
    && if e.at == 0 then
         && y.c0 == e.cat
         && (e.k == 1 ==> y.c1 == w.c1 && y.c2 == w.c2 && y.c3 == w.c3)
         && (e.k == 2 ==> Same(e, w.c2, y.c1) && Same(e, w.c3, y.c2))
         && (e.k == 3 ==> Same(e, w.c3, y.c1))
       else
         && y.c0 == w.c0
         && (e.at == 1 ==> y.c1 == e.cat && (e.k == 1 ==> y.c2 == w.c2 && y.c3 == w.c3) && (e.k == 2 ==> Same(e, w.c3, y.c2)))
         && (e.at == 2 ==> y.c1 == w.c1 && y.c2 == e.cat && y.c3 == w.c3)
  }

  /** Behind pp, `make_reserved` may turn an exp into a raw_int. */
  predicate Same(e: Effect, c: Cat, c': Cat)
    requires e.Does?
  {
    c' == c || (c == Exp && c' == RawInt && e.n in {42, 45, 46})
  }

  predicate Quiet(c0: Cat, c1: Cat, c2: Cat, c3: Cat) {
    On(Window(c0, c1, c2, c3)).Rests?
  }

  /** Production e, right behind l1, makes one apply there that is not looked for. */
  predicate Missed1(l1: Cat, e: Effect, y: Window)
    requires e.Does?
  {
    || (e.n == 7 && l1 == Tag)
    || (e.n in {44, 45, 46} && l1 == NewLike)
    || (e.n == 45 && l1 == TypedefLike)
    || (e.n == 101 && l1 == Exp && y.c1 == IntLike && y.c2 in {Comma, Lbrace})
  }

  predicate Missed2(l2: Cat, l1: Cat, y: Window) {
    l2 == DoLike && l1 == Stmt && y.c0 == ElseLike && y.c1 == Semi
  }

  predicate Missed3(l3: Cat, l2: Cat, l1: Cat, y: Window) {
    l3 == TypedefLike && l2 == DeclHead && l1 == Exp && y.c0 == Cast
  }

  // ----- What productions put where, by how far they back up -----

  /** Results that are second in no production, but for inserts and new. */
  predicate Dull(c: Cat) {
    c in {FnDecl, StructHead, IfClause, ElseHead, IfHead, IfLike, ElseLike, Langle, RawRpar, RawUnorbin}
  }

  /** Not backing up. */
  predicate Change0(e: Effect, w: Window, y: Window)
    requires e.Does?
  {
    && (Dull(y.c0) || y.c0 in {Exp, Tag, Lpar, DeclHead, IntLike, TypedefLike, NewLike, Base})
    && (w.c0 == Lpar <==> y.c0 == Lpar)
    && (w.c0 == StructLike <==> e.n in {44, 45, 46})
    && (y.c0 == Exp ==> w.c0 == Exp && w.c1 == Base && y.c1 == Base)
    && (y.c0 == Tag <==> e.n == 7)
    && (y.c0 == DeclHead ==> (e.n == 28 && y.c1 == Colon) || (e.n == 45 && y.c1 == Semi))
    && (e.n in {44, 46} ==> y.c0 == StructHead) && (e.n == 45 ==> y.c0 == DeclHead)
    && (y.c0 == IntLike ==> w.c0 == IntLike && w.c1 == Prelangle && y.c1 == Langle)
    && (y.c0 == TypedefLike ==> w.c0 == TypedefLike)
    && (y.c0 == NewLike ==> w.c0 in {NewLike, OperatorLike})
    && (y.c0 == Base <==> e.n == 101) && (e.n == 101 ==> w.c0 == Base && w.c1 == PublicLike)
    && w.c0 !in {Binop, Unop, Unorbinop, RawInt}
  }

  /** Results that are third in no production, but for a do. */
  predicate Dull1(c: Cat) {
    Dull(c) || c in {Tag, DeclHead, Stmt, Decl, Function, Cast, NewLike, TypedefLike}
  }

  /** Backing up by one at most. */
  predicate Change1(w: Window, y: Window) {
    && (Dull1(y.c0) || y.c0 in {Exp, Binop, Lpar, IntLike, StructLike, Base})
    && (y.c0 == Exp ==> w.c0 == Exp && w.c1 == Base && y.c1 in {Base, Lbrace})
    && (y.c0 == Binop ==> w.c0 in {Binop, Unorbinop}) && (w.c0 == Binop ==> y.c0 == Binop)
    && (w.c0 == Lpar <==> y.c0 == Lpar)
    && (y.c0 == IntLike ==> w.c0 == IntLike && w.c1 == Prelangle && y.c1 == Langle)
    && (y.c0 == StructLike ==> w.c0 == StructLike)
    && (w.c0 == Base <==> y.c0 == Base)
    && (y.c0 == ElseLike ==> w.c0 in {IfClause, IfHead})
    && w.c0 != Colcol
  }

  /** Backing up by two at most. */
  predicate Change2(w: Window, y: Window) {
    y.c0 !in {Comma, Lbrace, Semi, Rbrace, Rpar} && (w.c0 == Lpar ==> y.c0 in {Lpar, Exp, Cast})
  }

  predicate Change(e: Effect, w: Window, y: Window)
    requires e.Does?
  {
    && (e.d > -3 ==> Change2(w, y))
    && (e.d > -2 ==> Change1(w, y))
    && (e.d > -1 ==> Change0(e, w, y))
  }

  lemma {:induction false} ChangeExp(e: Effect, w: Window, y: Window)
    requires w.c0 == Exp && e == OnExp(w) && Follows(e, w, y)
    ensures Change(e, w, y)
  {
  }

  lemma {:induction false} ChangeLpar(e: Effect, w: Window, y: Window)
    requires w.c0 == Lpar && e == OnLpar(w) && Follows(e, w, y)
    ensures Change(e, w, y)
  {
  }

  lemma {:induction false} ChangeOperator(e: Effect, w: Window, y: Window)
    requires w.c0 in {Question, Unop, Unorbinop, Binop, Cast, SizeofLike} && e == OnOperator(w) && Follows(e, w, y)
    ensures Change(e, w, y)
  {
  }

  lemma {:induction false} ChangeIntLike(e: Effect, w: Window, y: Window)
    requires w.c0 == IntLike && e == OnIntLike(w) && Follows(e, w, y)
    ensures Change(e, w, y)
  {
  }

  lemma {:induction false} ChangeDeclHead(e: Effect, w: Window, y: Window)
    requires w.c0 == DeclHead && e == OnDeclHead(w) && Follows(e, w, y)
    ensures Change(e, w, y)
  {
  }

  lemma {:induction false} ChangeDeclaration(e: Effect, w: Window, y: Window)
    requires w.c0 in {Decl, TypedefLike} && e == OnDeclaration(w) && Follows(e, w, y)
    ensures Change(e, w, y)
  {
  }

  lemma {:induction false} ChangeBody(e: Effect, w: Window, y: Window)
    requires w.c0 in {StructHead, FnDecl, Function} && e == OnBody(w) && Follows(e, w, y)
    ensures Change(e, w, y)
  {
  }

  lemma {:induction false} ChangeStructLike(e: Effect, w: Window, y: Window)
    requires w.c0 == StructLike && e == OnStructLike(w) && Follows(e, w, y)
    ensures Change(e, w, y)
  {
  }

  lemma {:induction false} ChangeLbrace(e: Effect, w: Window, y: Window)
    requires w.c0 == Lbrace && e == OnLbrace(w) && Follows(e, w, y)
    ensures Change(e, w, y)
  {
  }

  lemma {:induction false} ChangeControl(e: Effect, w: Window, y: Window)
    requires w.c0 in {DoLike, IfLike, ForLike, ElseLike} && e == OnControl(w) && Follows(e, w, y)
    ensures Change(e, w, y)
  {
  }

  lemma {:induction false} ChangeConditional(e: Effect, w: Window, y: Window)
    requires w.c0 in {IfClause, IfHead, ElseHead} && e == OnConditional(w) && Follows(e, w, y)
    ensures Change(e, w, y)
  {
  }

  lemma {:induction false} ChangeLabel(e: Effect, w: Window, y: Window)
    requires w.c0 in {CaseLike, Tag} && e == OnLabel(w) && Follows(e, w, y)
    ensures Change(e, w, y)
  {
  }

  lemma {:induction false} ChangeStmt(e: Effect, w: Window, y: Window)
    requires w.c0 in {Stmt, Semi} && e == OnStmt(w) && Follows(e, w, y)
    ensures Change(e, w, y)
  {
  }

  lemma {:induction false} ChangeSpecial(e: Effect, w: Window, y: Window)
    requires w.c0 == SectionScrap && e == OnSpecial(w) && Follows(e, w, y)
    ensures Change(e, w, y)
  {
  }

  lemma {:induction false} ChangeAngle(e: Effect, w: Window, y: Window)
    requires w.c0 in {Prelangle, Prerangle} && e == OnAngle(w) && Follows(e, w, y)
    ensures Change(e, w, y)
  {
  }

  lemma {:induction false} ChangeClass(e: Effect, w: Window, y: Window)
    requires w.c0 in {Langle, PublicLike, Colcol} && e == OnClass(w) && Follows(e, w, y)
    ensures Change(e, w, y)
  {
  }

  lemma {:induction false} ChangeNew(e: Effect, w: Window, y: Window)
    requires w.c0 in {NewLike, OperatorLike} && e == OnNew(w) && Follows(e, w, y)
    ensures Change(e, w, y)
  {
  }

  lemma {:induction false} ChangeBase(e: Effect, w: Window, y: Window)
    requires w.c0 in {CatchLike, Base} && e == OnBase(w) && Follows(e, w, y)
    ensures Change(e, w, y)
  {
  }

  lemma {:induction false} ChangeRaw(e: Effect, w: Window, y: Window)
    requires w.c0 in {RawRpar, RawUnorbin} && e == OnRaw(w) && Follows(e, w, y)
    ensures Change(e, w, y)
  {
  }

  lemma {:induction false} ChangeRawInt(e: Effect, w: Window, y: Window)
    requires w.c0 in {ConstLike, RawInt} && e == OnRawInt(w) && Follows(e, w, y)
    ensures Change(e, w, y)
  {
  }

  // ----- The scraps left of pp -----

  /** Left of a production, v becomes v'. */
  predicate Second(v: Window, v': Window, e: Effect, w: Window, y: Window)
    requires e.Does?
  {
    && Change0(e, w, y)
    && v == Window(v.c0, w.c0, w.c1, w.c2) && v' == Window(v.c0, y.c0, y.c1, y.c2)
  }

  predicate Third(v: Window, v': Window, w: Window, y: Window) {
    && Change1(w, y) && (w.c0 == Exp ==> v.c1 !in {Exp}) && v.c1 != RawInt
    && v == Window(v.c0, v.c1, w.c0, w.c1) && v' == Window(v.c0, v.c1, y.c0, y.c1)
  }

  predicate Fourth(v: Window, v': Window, w: Window, y: Window) {
    && Change2(w, y) && !(v.c2 == Exp && w.c0 == Exp)
    && v == Window(v.c0, v.c1, v.c2, w.c0) && v' == Window(v.c0, v.c1, v.c2, y.c0)
  }

  lemma {:induction false} SecondExp(v: Window, v': Window, e: Effect, w: Window, y: Window)
    requires v.c0 == Exp && e.Does? && Second(v, v', e, w, y)
    requires OnExp(v).Rests?
    ensures OnExp(v').Rests? <==> !Missed1(v.c0, e, y)
  {
  }

  lemma {:induction false} SecondLpar(v: Window, v': Window, e: Effect, w: Window, y: Window)
    requires v.c0 == Lpar && e.Does? && Second(v, v', e, w, y)
    requires OnLpar(v).Rests?
    ensures OnLpar(v').Rests? <==> !Missed1(v.c0, e, y)
  {
  }

  lemma {:induction false} SecondOperator(v: Window, v': Window, e: Effect, w: Window, y: Window)
    requires v.c0 in {Question, Unop, Unorbinop, Binop, Cast, SizeofLike} && e.Does? && Second(v, v', e, w, y)
    requires OnOperator(v).Rests?
    ensures OnOperator(v').Rests? <==> !Missed1(v.c0, e, y)
  {
  }

  lemma {:induction false} SecondIntLike(v: Window, v': Window, e: Effect, w: Window, y: Window)
    requires v.c0 == IntLike && e.Does? && Second(v, v', e, w, y)
    requires OnIntLike(v).Rests?
    ensures OnIntLike(v').Rests? <==> !Missed1(v.c0, e, y)
  {
  }

  lemma {:induction false} SecondDeclHead(v: Window, v': Window, e: Effect, w: Window, y: Window)
    requires v.c0 == DeclHead && e.Does? && Second(v, v', e, w, y)
    requires OnDeclHead(v).Rests?
    ensures OnDeclHead(v').Rests? <==> !Missed1(v.c0, e, y)
  {
  }

  lemma {:induction false} SecondDeclaration(v: Window, v': Window, e: Effect, w: Window, y: Window)
    requires v.c0 in {Decl, TypedefLike} && e.Does? && Second(v, v', e, w, y)
    requires OnDeclaration(v).Rests?
    ensures OnDeclaration(v').Rests? <==> !Missed1(v.c0, e, y)
  {
  }

  lemma {:induction false} SecondBody(v: Window, v': Window, e: Effect, w: Window, y: Window)
    requires v.c0 in {StructHead, FnDecl, Function} && e.Does? && Second(v, v', e, w, y)
    requires OnBody(v).Rests?
    ensures OnBody(v').Rests? <==> !Missed1(v.c0, e, y)
  {
  }

  lemma {:induction false} SecondStructLike(v: Window, v': Window, e: Effect, w: Window, y: Window)
    requires v.c0 == StructLike && e.Does? && Second(v, v', e, w, y)
    requires OnStructLike(v).Rests?
    ensures OnStructLike(v').Rests? <==> !Missed1(v.c0, e, y)
  {
  }

  lemma {:induction false} SecondLbrace(v: Window, v': Window, e: Effect, w: Window, y: Window)
    requires v.c0 == Lbrace && e.Does? && Second(v, v', e, w, y)
    requires OnLbrace(v).Rests?
    ensures OnLbrace(v').Rests? <==> !Missed1(v.c0, e, y)
  {
  }

  lemma {:induction false} SecondControl(v: Window, v': Window, e: Effect, w: Window, y: Window)
    requires v.c0 in {DoLike, IfLike, ForLike, ElseLike} && e.Does? && Second(v, v', e, w, y)
    requires OnControl(v).Rests?
    ensures OnControl(v').Rests? <==> !Missed1(v.c0, e, y)
  {
  }

  lemma {:induction false} SecondConditional(v: Window, v': Window, e: Effect, w: Window, y: Window)
    requires v.c0 in {IfClause, IfHead, ElseHead} && e.Does? && Second(v, v', e, w, y)
    requires OnConditional(v).Rests?
    ensures OnConditional(v').Rests? <==> !Missed1(v.c0, e, y)
  {
  }

  lemma {:induction false} SecondLabel(v: Window, v': Window, e: Effect, w: Window, y: Window)
    requires v.c0 in {CaseLike, Tag} && e.Does? && Second(v, v', e, w, y)
    requires OnLabel(v).Rests?
    ensures OnLabel(v').Rests? <==> !Missed1(v.c0, e, y)
  {
  }

  lemma {:induction false} SecondStmt(v: Window, v': Window, e: Effect, w: Window, y: Window)
    requires v.c0 == Stmt && e.Does? && Second(v, v', e, w, y)
    requires OnStmt(v).Rests?
    ensures OnStmt(v').Rests? <==> !Missed1(v.c0, e, y)
  {
  }

  lemma {:induction false} SecondClass(v: Window, v': Window, e: Effect, w: Window, y: Window)
    requires v.c0 in {Langle, Colcol} && e.Does? && Second(v, v', e, w, y)
    requires OnClass(v).Rests?
    ensures OnClass(v').Rests? <==> !Missed1(v.c0, e, y)
  {
  }

  lemma {:induction false} SecondNew(v: Window, v': Window, e: Effect, w: Window, y: Window)
    requires v.c0 in {NewLike, OperatorLike} && e.Does? && Second(v, v', e, w, y)
    requires OnNew(v).Rests?
    ensures OnNew(v').Rests? <==> !Missed1(v.c0, e, y)
  {
  }

  lemma {:induction false} SecondBase(v: Window, v': Window, e: Effect, w: Window, y: Window)
    requires v.c0 in {CatchLike, Base} && e.Does? && Second(v, v', e, w, y)
    requires OnBase(v).Rests?
    ensures OnBase(v').Rests? <==> !Missed1(v.c0, e, y)
  {
  }

  lemma {:induction false} ThirdExp(v: Window, v': Window, w: Window, y: Window)
    requires v.c0 == Exp && Third(v, v', w, y) && OnExp(v).Rests?
    ensures OnExp(v').Rests? <==> !Missed2(v.c0, v.c1, y)
  {
  }

  lemma {:induction false} ThirdLpar(v: Window, v': Window, w: Window, y: Window)
    requires v.c0 == Lpar && Third(v, v', w, y) && OnLpar(v).Rests?
    ensures OnLpar(v').Rests? <==> !Missed2(v.c0, v.c1, y)
  {
  }

  lemma {:induction false} ThirdOperator(v: Window, v': Window, w: Window, y: Window)
    requires v.c0 in {Question, Unop, Unorbinop, Binop, Cast, SizeofLike} && Third(v, v', w, y) && OnOperator(v).Rests?
    ensures OnOperator(v').Rests? <==> !Missed2(v.c0, v.c1, y)
  {
  }

  lemma {:induction false} ThirdIntLike(v: Window, v': Window, w: Window, y: Window)
    requires v.c0 == IntLike && Third(v, v', w, y) && OnIntLike(v).Rests?
    ensures OnIntLike(v').Rests? <==> !Missed2(v.c0, v.c1, y)
  {
  }

  lemma {:induction false} ThirdDeclHead(v: Window, v': Window, w: Window, y: Window)
    requires v.c0 == DeclHead && Third(v, v', w, y) && OnDeclHead(v).Rests?
    ensures OnDeclHead(v').Rests? <==> !Missed2(v.c0, v.c1, y)
  {
  }

  lemma {:induction false} ThirdDeclaration(v: Window, v': Window, w: Window, y: Window)
    requires v.c0 in {Decl, TypedefLike} && Third(v, v', w, y) && OnDeclaration(v).Rests?
    ensures OnDeclaration(v').Rests? <==> !Missed2(v.c0, v.c1, y)
  {
  }

  lemma {:induction false} ThirdBody(v: Window, v': Window, w: Window, y: Window)
    requires v.c0 in {StructHead, FnDecl, Function} && Third(v, v', w, y) && OnBody(v).Rests?
    ensures OnBody(v').Rests? <==> !Missed2(v.c0, v.c1, y)
  {
  }

  lemma {:induction false} ThirdStructLike(v: Window, v': Window, w: Window, y: Window)
    requires v.c0 == StructLike && Third(v, v', w, y) && OnStructLike(v).Rests?
    ensures OnStructLike(v').Rests? <==> !Missed2(v.c0, v.c1, y)
  {
  }

  lemma {:induction false} ThirdLbrace(v: Window, v': Window, w: Window, y: Window)
    requires v.c0 == Lbrace && Third(v, v', w, y) && OnLbrace(v).Rests?
    ensures OnLbrace(v').Rests? <==> !Missed2(v.c0, v.c1, y)
  {
  }

  lemma {:induction false} ThirdControl(v: Window, v': Window, w: Window, y: Window)
    requires v.c0 in {DoLike, IfLike, ForLike, ElseLike} && Third(v, v', w, y) && OnControl(v).Rests?
    ensures OnControl(v').Rests? <==> !Missed2(v.c0, v.c1, y)
  {
  }

  lemma {:induction false} ThirdConditional(v: Window, v': Window, w: Window, y: Window)
    requires v.c0 in {IfClause, IfHead, ElseHead} && Third(v, v', w, y) && OnConditional(v).Rests?
    ensures OnConditional(v').Rests? <==> !Missed2(v.c0, v.c1, y)
  {
  }

  lemma {:induction false} ThirdLabel(v: Window, v': Window, w: Window, y: Window)
    requires v.c0 in {CaseLike, Tag} && Third(v, v', w, y) && OnLabel(v).Rests?
    ensures OnLabel(v').Rests? <==> !Missed2(v.c0, v.c1, y)
  {
  }

  lemma {:induction false} ThirdStmt(v: Window, v': Window, w: Window, y: Window)
    requires v.c0 == Stmt && Third(v, v', w, y) && OnStmt(v).Rests?
    ensures OnStmt(v').Rests? <==> !Missed2(v.c0, v.c1, y)
  {
  }

  lemma {:induction false} ThirdClass(v: Window, v': Window, w: Window, y: Window)
    requires v.c0 in {Langle, Colcol} && Third(v, v', w, y) && OnClass(v).Rests?
    ensures OnClass(v').Rests? <==> !Missed2(v.c0, v.c1, y)
  {
  }

  lemma {:induction false} ThirdNew(v: Window, v': Window, w: Window, y: Window)
    requires v.c0 in {NewLike, OperatorLike} && Third(v, v', w, y) && OnNew(v).Rests?
    ensures OnNew(v').Rests? <==> !Missed2(v.c0, v.c1, y)
  {
  }

  lemma {:induction false} ThirdBase(v: Window, v': Window, w: Window, y: Window)
    requires v.c0 in {CatchLike, Base} && Third(v, v', w, y) && OnBase(v).Rests?
    ensures OnBase(v').Rests? <==> !Missed2(v.c0, v.c1, y)
  {
  }

  lemma {:induction false} FourthExp(v: Window, v': Window, w: Window, y: Window)
    requires v.c0 == Exp && Fourth(v, v', w, y) && OnExp(v).Rests?
    ensures OnExp(v').Rests? <==> !Missed3(v.c0, v.c1, v.c2, y)
  {
  }

  lemma {:induction false} FourthLpar(v: Window, v': Window, w: Window, y: Window)
    requires v.c0 == Lpar && Fourth(v, v', w, y) && OnLpar(v).Rests?
    ensures OnLpar(v').Rests? <==> !Missed3(v.c0, v.c1, v.c2, y)
  {
  }

  lemma {:induction false} FourthOperator(v: Window, v': Window, w: Window, y: Window)
    requires v.c0 in {Question, Unop, Unorbinop, Binop, Cast, SizeofLike} && Fourth(v, v', w, y) && OnOperator(v).Rests?
    ensures OnOperator(v').Rests? <==> !Missed3(v.c0, v.c1, v.c2, y)
  {
  }

  lemma {:induction false} FourthIntLike(v: Window, v': Window, w: Window, y: Window)
    requires v.c0 == IntLike && Fourth(v, v', w, y) && OnIntLike(v).Rests?
    ensures OnIntLike(v').Rests? <==> !Missed3(v.c0, v.c1, v.c2, y)
  {
  }

  lemma {:induction false} FourthDeclHead(v: Window, v': Window, w: Window, y: Window)
    requires v.c0 == DeclHead && Fourth(v, v', w, y) && OnDeclHead(v).Rests?
    ensures OnDeclHead(v').Rests? <==> !Missed3(v.c0, v.c1, v.c2, y)
  {
  }

  lemma {:induction false} FourthDeclaration(v: Window, v': Window, w: Window, y: Window)
    requires v.c0 in {Decl, TypedefLike} && Fourth(v, v', w, y) && OnDeclaration(v).Rests?
    ensures OnDeclaration(v').Rests? <==> !Missed3(v.c0, v.c1, v.c2, y)
  {
  }

  lemma {:induction false} FourthBody(v: Window, v': Window, w: Window, y: Window)
    requires v.c0 in {StructHead, FnDecl, Function} && Fourth(v, v', w, y) && OnBody(v).Rests?
    ensures OnBody(v').Rests? <==> !Missed3(v.c0, v.c1, v.c2, y)
  {
  }

  lemma {:induction false} FourthStructLike(v: Window, v': Window, w: Window, y: Window)
    requires v.c0 == StructLike && Fourth(v, v', w, y) && OnStructLike(v).Rests?
    ensures OnStructLike(v').Rests? <==> !Missed3(v.c0, v.c1, v.c2, y)
  {
  }

  lemma {:induction false} FourthLbrace(v: Window, v': Window, w: Window, y: Window)
    requires v.c0 == Lbrace && Fourth(v, v', w, y) && OnLbrace(v).Rests?
    ensures OnLbrace(v').Rests? <==> !Missed3(v.c0, v.c1, v.c2, y)
  {
  }

  lemma {:induction false} FourthControl(v: Window, v': Window, w: Window, y: Window)
    requires v.c0 in {DoLike, IfLike, ForLike, ElseLike} && Fourth(v, v', w, y) && OnControl(v).Rests?
    ensures OnControl(v').Rests? <==> !Missed3(v.c0, v.c1, v.c2, y)
  {
  }

  lemma {:induction false} FourthConditional(v: Window, v': Window, w: Window, y: Window)
    requires v.c0 in {IfClause, IfHead, ElseHead} && Fourth(v, v', w, y) && OnConditional(v).Rests?
    ensures OnConditional(v').Rests? <==> !Missed3(v.c0, v.c1, v.c2, y)
  {
  }

  lemma {:induction false} FourthLabel(v: Window, v': Window, w: Window, y: Window)
    requires v.c0 in {CaseLike, Tag} && Fourth(v, v', w, y) && OnLabel(v).Rests?
    ensures OnLabel(v').Rests? <==> !Missed3(v.c0, v.c1, v.c2, y)
  {
  }

  lemma {:induction false} FourthStmt(v: Window, v': Window, w: Window, y: Window)
    requires v.c0 == Stmt && Fourth(v, v', w, y) && OnStmt(v).Rests?
    ensures OnStmt(v').Rests? <==> !Missed3(v.c0, v.c1, v.c2, y)
  {
  }

  lemma {:induction false} FourthClass(v: Window, v': Window, w: Window, y: Window)
    requires v.c0 in {Langle, Colcol} && Fourth(v, v', w, y) && OnClass(v).Rests?
    ensures OnClass(v').Rests? <==> !Missed3(v.c0, v.c1, v.c2, y)
  {
  }

  lemma {:induction false} FourthNew(v: Window, v': Window, w: Window, y: Window)
    requires v.c0 in {NewLike, OperatorLike} && Fourth(v, v', w, y) && OnNew(v).Rests?
    ensures OnNew(v').Rests? <==> !Missed3(v.c0, v.c1, v.c2, y)
  {
  }

  lemma {:induction false} FourthBase(v: Window, v': Window, w: Window, y: Window)
    requires v.c0 in {CatchLike, Base} && Fourth(v, v', w, y) && OnBase(v).Rests?
    ensures OnBase(v').Rests? <==> !Missed3(v.c0, v.c1, v.c2, y)
  {
  }

  // ----- All of it -----

  /** Some production applies to these, whatever follows. */
  predicate RestsNever(c: Cat) {
    c in {Semi, SectionScrap, Prelangle, Prerangle, PublicLike, RawRpar, RawUnorbin, ConstLike, RawInt}
  }

  lemma {:induction false} NeverRests(v: Window)
    requires RestsNever(v.c0)
    ensures On(v).Does?
  {
  }

  lemma {:induction false} NotMissedNow(v: Window, e: Effect, y: Window)
    requires e.Does? && v.c0 !in {Tag, NewLike, TypedefLike, Exp}
    ensures !Missed1(v.c0, e, y)
  {
  }

  lemma {:induction false} NotMissed(v: Window, y: Window)
    requires v.c0 !in {TypedefLike, DoLike}
    ensures !Missed2(v.c0, v.c1, y) && !Missed3(v.c0, v.c1, v.c2, y)
  {
  }

  lemma {:induction false} SecondRests(v: Window, v': Window, e: Effect, w: Window, y: Window)
    requires e.Does? && Second(v, v', e, w, y) && On(v).Rests?
    ensures On(v').Rests? <==> !Missed1(v.c0, e, y)
  {
    hide OnExp, OnLpar, OnOperator, OnIntLike, OnDeclHead, OnDeclaration, OnBody, OnStructLike, OnLbrace, OnControl,
      OnConditional, OnLabel, OnStmt, OnSpecial, OnAngle, OnClass, OnNew, OnBase, OnRaw, OnRawInt, Second, Missed1, Missed2,
      Missed3;
    if RestsNever(v.c0) {
      NeverRests(v);
    } else {
      SecondHead(v, v', e, w, y);
      match v.c0
      case Exp => SecondExp(v, v', e, w, y);
      case Lpar => SecondLpar(v, v', e, w, y);
      case Question | Unop | Unorbinop | Binop | Cast | SizeofLike => SecondOperator(v, v', e, w, y);
      case IntLike => SecondIntLike(v, v', e, w, y);
      case DeclHead => SecondDeclHead(v, v', e, w, y);
      case Decl | TypedefLike => SecondDeclaration(v, v', e, w, y);
      case StructHead | FnDecl | Function => SecondBody(v, v', e, w, y);
      case StructLike => SecondStructLike(v, v', e, w, y);
      case Lbrace => SecondLbrace(v, v', e, w, y);
      case DoLike | IfLike | ForLike | ElseLike => SecondControl(v, v', e, w, y);
      case IfClause | IfHead | ElseHead => SecondConditional(v, v', e, w, y);
      case CaseLike | Tag => SecondLabel(v, v', e, w, y);
      case Stmt => SecondStmt(v, v', e, w, y);
      case Langle | Colcol => SecondClass(v, v', e, w, y);
      case NewLike | OperatorLike => SecondNew(v, v', e, w, y);
      case CatchLike | Base => SecondBase(v, v', e, w, y);
      case _ => NotMissedNow(v, e, y);
    }
  }

  lemma {:induction false} ThirdRests(v: Window, v': Window, w: Window, y: Window)
    requires Third(v, v', w, y) && On(v).Rests?
    ensures On(v').Rests? <==> !Missed2(v.c0, v.c1, y)
  {
    hide OnExp, OnLpar, OnOperator, OnIntLike, OnDeclHead, OnDeclaration, OnBody, OnStructLike, OnLbrace, OnControl,
      OnConditional, OnLabel, OnStmt, OnSpecial, OnAngle, OnClass, OnNew, OnBase, OnRaw, OnRawInt, Third, Missed1, Missed2,
      Missed3;
    if RestsNever(v.c0) {
      NeverRests(v);
    } else {
      ThirdHead(v, v', w, y);
      match v.c0
      case Exp => ThirdExp(v, v', w, y);
      case Lpar => ThirdLpar(v, v', w, y);
      case Question | Unop | Unorbinop | Binop | Cast | SizeofLike => ThirdOperator(v, v', w, y);
      case IntLike => ThirdIntLike(v, v', w, y);
      case DeclHead => ThirdDeclHead(v, v', w, y);
      case Decl | TypedefLike => ThirdDeclaration(v, v', w, y);
      case StructHead | FnDecl | Function => ThirdBody(v, v', w, y);
      case StructLike => ThirdStructLike(v, v', w, y);
      case Lbrace => ThirdLbrace(v, v', w, y);
      case DoLike | IfLike | ForLike | ElseLike => ThirdControl(v, v', w, y);
      case IfClause | IfHead | ElseHead => ThirdConditional(v, v', w, y);
      case CaseLike | Tag => ThirdLabel(v, v', w, y);
      case Stmt => ThirdStmt(v, v', w, y);
      case Langle | Colcol => ThirdClass(v, v', w, y);
      case NewLike | OperatorLike => ThirdNew(v, v', w, y);
      case CatchLike | Base => ThirdBase(v, v', w, y);
      case _ => NotMissed(v, y);
    }
  }

  lemma {:induction false} FourthRests(v: Window, v': Window, w: Window, y: Window)
    requires Fourth(v, v', w, y) && On(v).Rests?
    ensures On(v').Rests? <==> !Missed3(v.c0, v.c1, v.c2, y)
  {
    hide OnExp, OnLpar, OnOperator, OnIntLike, OnDeclHead, OnDeclaration, OnBody, OnStructLike, OnLbrace, OnControl,
      OnConditional, OnLabel, OnStmt, OnSpecial, OnAngle, OnClass, OnNew, OnBase, OnRaw, OnRawInt, Fourth, Missed1, Missed2,
      Missed3;
    if RestsNever(v.c0) {
      NeverRests(v);
    } else {
      FourthHead(v, v', w, y);
      match v.c0
      case Exp => FourthExp(v, v', w, y);
      case Lpar => FourthLpar(v, v', w, y);
      case Question | Unop | Unorbinop | Binop | Cast | SizeofLike => FourthOperator(v, v', w, y);
      case IntLike => FourthIntLike(v, v', w, y);
      case DeclHead => FourthDeclHead(v, v', w, y);
      case Decl | TypedefLike => FourthDeclaration(v, v', w, y);
      case StructHead | FnDecl | Function => FourthBody(v, v', w, y);
      case StructLike => FourthStructLike(v, v', w, y);
      case Lbrace => FourthLbrace(v, v', w, y);
      case DoLike | IfLike | ForLike | ElseLike => FourthControl(v, v', w, y);
      case IfClause | IfHead | ElseHead => FourthConditional(v, v', w, y);
      case CaseLike | Tag => FourthLabel(v, v', w, y);
      case Stmt => FourthStmt(v, v', w, y);
      case Langle | Colcol => FourthClass(v, v', w, y);
      case NewLike | OperatorLike => FourthNew(v, v', w, y);
      case CatchLike | Base => FourthBase(v, v', w, y);
      case _ => NotMissed(v, y);
    }
  }

  lemma SecondHead(v: Window, v': Window, e: Effect, w: Window, y: Window)
    requires e.Does? && Second(v, v', e, w, y)
    ensures v'.c0 == v.c0
  {
  }

  lemma ThirdHead(v: Window, v': Window, w: Window, y: Window)
    requires Third(v, v', w, y)
    ensures v'.c0 == v.c0
  {
  }

  lemma FourthHead(v: Window, v': Window, w: Window, y: Window)
    requires Fourth(v, v', w, y)
    ensures v'.c0 == v.c0
  {
  }

  lemma {:induction false} Changes(w: Window, y: Window)
    requires On(w).Does? && Follows(On(w), w, y)
    ensures Change(On(w), w, y)
  {
    hide Follows, Change, OnExp, OnLpar, OnOperator, OnIntLike, OnDeclHead, OnDeclaration, OnBody, OnStructLike, OnLbrace,
      OnControl, OnConditional, OnLabel, OnStmt, OnSpecial, OnAngle, OnClass, OnNew, OnBase, OnRaw, OnRawInt;
    match w.c0
    case Exp => ChangeExp(On(w), w, y);
    case Lpar => ChangeLpar(On(w), w, y);
    case Question | Unop | Unorbinop | Binop | Cast | SizeofLike => ChangeOperator(On(w), w, y);
    case IntLike => ChangeIntLike(On(w), w, y);
    case DeclHead => ChangeDeclHead(On(w), w, y);
    case Decl | TypedefLike => ChangeDeclaration(On(w), w, y);
    case StructHead | FnDecl | Function => ChangeBody(On(w), w, y);
    case StructLike => ChangeStructLike(On(w), w, y);
    case Lbrace => ChangeLbrace(On(w), w, y);
    case DoLike | IfLike | ForLike | ElseLike => ChangeControl(On(w), w, y);
    case IfClause | IfHead | ElseHead => ChangeConditional(On(w), w, y);
    case CaseLike | Tag => ChangeLabel(On(w), w, y);
    case Stmt | Semi => ChangeStmt(On(w), w, y);
    case SectionScrap => ChangeSpecial(On(w), w, y);
    case Prelangle | Prerangle => ChangeAngle(On(w), w, y);
    case Langle | PublicLike | Colcol => ChangeClass(On(w), w, y);
    case NewLike | OperatorLike => ChangeNew(On(w), w, y);
    case CatchLike | Base => ChangeBase(On(w), w, y);
    case RawRpar | RawUnorbin => ChangeRaw(On(w), w, y);
    case ConstLike | RawInt => ChangeRawInt(On(w), w, y);
    case _ =>
  }

  // ----- Numbers, runs and distances -----

  predicate Regular(e: Effect, w: Window)
    requires e.Does?
  {
    && 1 <= e.k && e.at + e.k <= 4 && e.at <= 2 && (e.at == 2 ==> e.k == 1) && (e.k == 1 ==> e.n !in {42, 45, 46})
    && (e.at > 0 ==> w.c0 in {Exp, IntLike, TypedefLike, StructLike, Base})
    && e.d <= 1 && (e.d == 1 ==> w.c0 == IntLike && w.c1 != Zero && e.at + e.k == 2)
    && (Simple(w.c1) && Simple(w.c2) ==> Simple(e.cat))
    && (e.n in {7, 44, 45, 46, 64, 67, 101} ==> e.d == 0)
    && (e.n in {64, 67} ==> e.at == 0 && e.k == 3) && (e.n == 65 ==> e.k == 1 && w.c1 == Stmt)
    && (e.n == 101 ==> e.at == 0 && e.k == 4 && w.c0 == Base)
    && (e.n == 13 <==> e.cat == Cast && w.c0 == Lpar) && (e.n == 13 ==> e.d == -2)
    && (e.cat == Cast ==> e.at == 0 && w.c0 in {Lpar, Langle})
    && (e.cat == ElseLike && e.d > -2 <==> e.n in {64, 65, 67}) && (e.cat == ElseLike ==> e.at == 0)
  }

  lemma {:induction false} RegularExp(e: Effect, w: Window)
    requires w.c0 == Exp && e == OnExp(w) && e.Does?
    ensures Regular(e, w)
  {
  }

  lemma {:induction false} RegularLpar(e: Effect, w: Window)
    requires w.c0 == Lpar && e == OnLpar(w) && e.Does?
    ensures Regular(e, w)
  {
  }

  lemma {:induction false} RegularOperator(e: Effect, w: Window)
    requires w.c0 in {Question, Unop, Unorbinop, Binop, Cast, SizeofLike} && e == OnOperator(w) && e.Does?
    ensures Regular(e, w)
  {
  }

  lemma {:induction false} RegularIntLike(e: Effect, w: Window)
    requires w.c0 == IntLike && e == OnIntLike(w) && e.Does?
    ensures Regular(e, w)
  {
  }

  lemma {:induction false} RegularDeclHead(e: Effect, w: Window)
    requires w.c0 == DeclHead && e == OnDeclHead(w) && e.Does?
    ensures Regular(e, w)
  {
  }

  lemma {:induction false} RegularDeclaration(e: Effect, w: Window)
    requires w.c0 in {Decl, TypedefLike} && e == OnDeclaration(w) && e.Does?
    ensures Regular(e, w)
  {
  }

  lemma {:induction false} RegularBody(e: Effect, w: Window)
    requires w.c0 in {StructHead, FnDecl, Function} && e == OnBody(w) && e.Does?
    ensures Regular(e, w)
  {
  }

  lemma {:induction false} RegularStructLike(e: Effect, w: Window)
    requires w.c0 == StructLike && e == OnStructLike(w) && e.Does?
    ensures Regular(e, w)
  {
  }

  lemma {:induction false} RegularLbrace(e: Effect, w: Window)
    requires w.c0 == Lbrace && e == OnLbrace(w) && e.Does?
    ensures Regular(e, w)
  {
  }

  lemma {:induction false} RegularControl(e: Effect, w: Window)
    requires w.c0 in {DoLike, IfLike, ForLike, ElseLike} && e == OnControl(w) && e.Does?
    ensures Regular(e, w)
  {
  }

  lemma {:induction false} RegularConditional(e: Effect, w: Window)
    requires w.c0 in {IfClause, IfHead, ElseHead} && e == OnConditional(w) && e.Does?
    ensures Regular(e, w)
  {
  }

  lemma {:induction false} RegularLabel(e: Effect, w: Window)
    requires w.c0 in {CaseLike, Tag} && e == OnLabel(w) && e.Does?
    ensures Regular(e, w)
  {
  }

  lemma {:induction false} RegularStmt(e: Effect, w: Window)
    requires w.c0 in {Stmt, Semi} && e == OnStmt(w) && e.Does?
    ensures Regular(e, w)
  {
  }

  lemma {:induction false} RegularSpecial(e: Effect, w: Window)
    requires w.c0 == SectionScrap && e == OnSpecial(w) && e.Does?
    ensures Regular(e, w)
  {
  }

  lemma {:induction false} RegularAngle(e: Effect, w: Window)
    requires w.c0 in {Prelangle, Prerangle} && e == OnAngle(w) && e.Does?
    ensures Regular(e, w)
  {
  }

  lemma {:induction false} RegularClass(e: Effect, w: Window)
    requires w.c0 in {Langle, PublicLike, Colcol} && e == OnClass(w) && e.Does?
    ensures Regular(e, w)
  {
  }

  lemma {:induction false} RegularNew(e: Effect, w: Window)
    requires w.c0 in {NewLike, OperatorLike} && e == OnNew(w) && e.Does?
    ensures Regular(e, w)
  {
  }

  lemma {:induction false} RegularBase(e: Effect, w: Window)
    requires w.c0 in {CatchLike, Base} && e == OnBase(w) && e.Does?
    ensures Regular(e, w)
  {
  }

  lemma {:induction false} RegularRaw(e: Effect, w: Window)
    requires w.c0 in {RawRpar, RawUnorbin} && e == OnRaw(w) && e.Does?
    ensures Regular(e, w)
  {
  }

  lemma {:induction false} RegularRawInt(e: Effect, w: Window)
    requires w.c0 in {ConstLike, RawInt} && e == OnRawInt(w) && e.Does?
    ensures Regular(e, w)
  {
  }

  lemma {:induction false} Regularly(w: Window)
    requires On(w).Does?
    ensures Regular(On(w), w)
  {
    hide Regular, OnExp, OnLpar, OnOperator, OnIntLike, OnDeclHead, OnDeclaration, OnBody, OnStructLike, OnLbrace,
      OnControl, OnConditional, OnLabel, OnStmt, OnSpecial, OnAngle, OnClass, OnNew, OnBase, OnRaw, OnRawInt;
    match w.c0
    case Exp => RegularExp(On(w), w);
    case Lpar => RegularLpar(On(w), w);
    case Question | Unop | Unorbinop | Binop | Cast | SizeofLike => RegularOperator(On(w), w);
    case IntLike => RegularIntLike(On(w), w);
    case DeclHead => RegularDeclHead(On(w), w);
    case Decl | TypedefLike => RegularDeclaration(On(w), w);
    case StructHead | FnDecl | Function => RegularBody(On(w), w);
    case StructLike => RegularStructLike(On(w), w);
    case Lbrace => RegularLbrace(On(w), w);
    case DoLike | IfLike | ForLike | ElseLike => RegularControl(On(w), w);
    case IfClause | IfHead | ElseHead => RegularConditional(On(w), w);
    case CaseLike | Tag => RegularLabel(On(w), w);
    case Stmt | Semi => RegularStmt(On(w), w);
    case SectionScrap => RegularSpecial(On(w), w);
    case Prelangle | Prerangle => RegularAngle(On(w), w);
    case Langle | PublicLike | Colcol => RegularClass(On(w), w);
    case NewLike | OperatorLike => RegularNew(On(w), w);
    case CatchLike | Base => RegularBase(On(w), w);
    case RawRpar | RawUnorbin => RegularRaw(On(w), w);
    case ConstLike | RawInt => RegularRawInt(On(w), w);
    case _ =>
  }
}
