/**
 C statements of any size: their scraps are reduced to one stmt, whose text is laid out by recursion
 on the statement.
 */
module ScrapStatements {
  import opened ScrapGrammar
  import opened ScrapText
  import opened ScrapRewrite
  import opened ScrapInvariants
  import opened ScrapLevels
  import opened ScrapSeen
  import opened ScrapInserts
  import opened ScrapSteps

  /** Operands and binary operators. */
  datatype Ex = Var(x: Tok) | Op(left: Ex, op: Tok, x: Tok)

  /** An expression in parentheses. */
  datatype Cond = Cond(open: Tok, e: Ex, close: Tok)

  datatype Stm =
    | Do(e: Ex, semi: Tok)
    | Empty(open: Tok, close: Tok)
    | Block(open: Tok, body: Stms, close: Tok)
    | If(kw: Tok, tail: IfTail)
    | While(kw: Tok, c: Cond, s: Stm)
    | DoWhile(kw: Tok, s: Stm, whl: Tok, c: Cond, semi: Tok)

  /** What follows `if`. */
  datatype IfTail = Then(c: Cond, s: Stm) | Else(c: Cond, s: Stm, els: Tok, other: Stm)

  datatype Stms = One(s: Stm) | More(front: Stms, s: Stm)

  /** A following `else` would belong to this statement. */
  predicate Dangling(s: Stm) {
    match s
    case If(_, tail) => (match tail case Then(_, _) => true case Else(_, _, _, other) => Dangling(other))
    case While(_, _, s') => Dangling(s')
    case _ => false
  }

  /** Every `else` has the `if` that C gives it. */
  predicate Proper(s: Stm) {
    match s
    case Do(_, _) => true
    case Empty(_, _) => true
    case Block(_, body, _) => ProperAll(body)
    case If(_, tail) =>
      (match tail
       case Then(_, s') => Proper(s')
       case Else(_, s', _, other) => Proper(s') && !Dangling(s') && Proper(other))
    case While(_, _, s') => Proper(s')
    case DoWhile(_, s', _, _, _) => Proper(s')
  }

  predicate ProperAll(ss: Stms) {
    match ss
    case One(s) => Proper(s)
    case More(front, s) => ProperAll(front) && Proper(s)
  }

  // ----- The scraps -----

  function ExScraps(e: Ex): seq<Seg> {
    match e
    case Var(x) => [Seg(Exp, x)]
    case Op(left, op, x) => ExScraps(left) + [Seg(Binop, op), Seg(Exp, x)]
  }

  function CondScraps(c: Cond): seq<Seg> {
    [Seg(Lpar, c.open)] + (ExScraps(c.e) + [Seg(RawRpar, c.close)])
  }

  function Scraps(s: Stm): seq<Seg> {
    match s
    case Do(e, semi) => ExScraps(e) + [Seg(Semi, semi)]
    case Empty(open, close) => [Seg(Lbrace, open), Seg(Rbrace, close)]
    case Block(open, body, close) => [Seg(Lbrace, open)] + (AllScraps(body) + [Seg(Rbrace, close)])
    case If(kw, tail) => [Seg(IfLike, kw)] + TailScraps(tail)
    case While(kw, c, s') => [Seg(ForLike, kw)] + (CondScraps(c) + Scraps(s'))
    case DoWhile(kw, s', whl, c, semi) =>
      [Seg(DoLike, kw)] + (Scraps(s') + ([Seg(ForLike, whl)] + (CondScraps(c) + [Seg(Semi, semi)])))
  }

  function TailScraps(tail: IfTail): seq<Seg> {
    match tail
    case Then(c, s) => CondScraps(c) + Scraps(s)
    case Else(c, s, els, other) => CondScraps(c) + (Scraps(s) + ([Seg(ElseLike, els)] + Scraps(other)))
  }

  function AllScraps(ss: Stms): seq<Seg> {
    match ss
    case One(s) => Scraps(s)
    case More(front, s) => AllScraps(front) + Scraps(s)
  }

  // ----- The layout -----

  function ExText(e: Ex): Tok {
    match e
    case Var(x) => x
    case Op(left, op, x) => Join([ExText(left), op, x])
  }

  /** A keyword and its condition. */
  function Headed(kw: Tok, c: Cond): Tok {
    Join([kw, M(Ch(' ')), Join([c.open, ExText(c.e), c.close])])
  }

  /** A head and the statement under it: a compound statement starts on the head's line, others are indented. */
  function Under(head: Tok, s: Stm, text: Tok): Tok {
    if Compound(s) then Join([M(Force), head, M(BreakSpace), M(Noop), M(Cancel), text, M(Force)])
    else Join([M(Force), head, M(Indent), M(BreakSpace), text, M(Outdent), M(Force)])
  }

  predicate Compound(s: Stm) {
    s.Empty? || s.Block?
  }

  /** How a statement is laid out; statements of a list are on lines of their own if forceLines is set. */
  function Layout(s: Stm, forceLines: bool): Tok
    decreases s, 0
  {
    match s
    case Do(e, semi) => Join([ExText(e), semi])
    case Empty(open, close) => Join([open, M(Ch('\\')), M(Ch(',')), close])
    case Block(open, body, close) =>
      Join([M(Force), open, M(Indent), M(Force), AllLayout(body, forceLines), M(Force), M(Backup), close, M(Outdent), M(Force)])
    case If(kw, tail) => IfLayout(kw, tail, forceLines)
    case While(kw, c, s') => Under(Headed(kw, c), s', Layout(s', forceLines))
    case DoWhile(kw, s', whl, c, semi) =>
      Join([kw, M(BreakSpace), M(Noop), M(Cancel), Layout(s', forceLines), M(Cancel), M(Noop), M(BreakSpace),
            Headed(whl, c), semi])
  }

  /** An `else if` continues the head of its line. */
  function IfLayout(head: Tok, tail: IfTail, forceLines: bool): Tok
    decreases tail, 0
  {
    match tail
    case Then(c, s) => Under(Headed(head, c), s, Layout(s, forceLines))
    case Else(c, s, els, other) =>
      var first := Under(Headed(head, c), s, Layout(s, forceLines)) + els;
      match other
      case If(kw, tail') => IfLayout(first + M(Ch(' ')) + kw, tail', forceLines)
      case _ => Under(first, other, Layout(other, forceLines))
  }

  function AllLayout(ss: Stms, forceLines: bool): Tok
    decreases ss, 0
  {
    match ss
    case One(s) => Layout(s, forceLines)
    case More(front, s) => Join([AllLayout(front, forceLines), M(if forceLines then Force else BreakSpace), Layout(s, forceLines)])
  }

  // ----- Form of the scraps -----

  function First(s: Stm): Cat {
    match s
    case Do(_, _) => Exp
    case Empty(_, _) => Lbrace
    case Block(_, _, _) => Lbrace
    case If(_, _) => IfLike
    case While(_, _, _) => ForLike
    case DoWhile(_, _, _, _, _) => DoLike
  }

  lemma {:induction false} ExForm(e: Ex)
    ensures Clean(ExScraps(e)) && ExScraps(e) != [] && ExScraps(e)[0].cat == Exp
    ensures CatOf(ExScraps(e), 1) in {Zero, Binop}
  {
    if e.Op? {
      ExForm(e.left);
      CleanConcat(ExScraps(e.left), [Seg(Binop, e.op), Seg(Exp, e.x)]);
    }
  }

  lemma {:induction false} CondForm(c: Cond)
    ensures Clean(CondScraps(c)) && |CondScraps(c)| >= 3 && CondScraps(c)[0].cat == Lpar
  {
    hide ExScraps;
    ExForm(c.e);
    CleanConcat(ExScraps(c.e), [Seg(RawRpar, c.close)]);
    CleanConcat([Seg(Lpar, c.open)], ExScraps(c.e) + [Seg(RawRpar, c.close)]);
  }

  /** Where a statement may begin. */
  ghost predicate Begins(x: seq<Seg>, c: Cat) {
    && Clean(x) && |x| >= 2 && x[0].cat == c
    && (c == Exp ==> x[1].cat in {Binop, Semi})
  }

  lemma {:induction false} DoForm(e: Ex, semi: Tok)
    ensures Begins(ExScraps(e) + [Seg(Semi, semi)], Exp)
  {
    hide ExScraps;
    ExForm(e);
    CleanConcat(ExScraps(e), [Seg(Semi, semi)]);
  }

  lemma {:induction false} Form(s: Stm)
    ensures Begins(Scraps(s), First(s))
    decreases s
  {
    hide CondScraps, ExScraps;
    match s
    case Do(e, semi) => DoForm(e, semi);
    case Empty(open, close) =>
    case Block(open, body, close) =>
      AllForm(body);
      CleanConcat(AllScraps(body), [Seg(Rbrace, close)]);
      CleanConcat([Seg(Lbrace, open)], AllScraps(body) + [Seg(Rbrace, close)]);
    case If(kw, tail) =>
      TailForm(tail);
      CleanConcat([Seg(IfLike, kw)], TailScraps(tail));
    case While(kw, c, s') =>
      Form(s');
      CondForm(c);
      CleanConcat(CondScraps(c), Scraps(s'));
      CleanConcat([Seg(ForLike, kw)], CondScraps(c) + Scraps(s'));
    case DoWhile(kw, s', whl, c, semi) =>
      Form(s');
      LoopForm(kw, Scraps(s'), whl, c, semi);
  }

  lemma {:induction false} LoopForm(kw: Tok, x: seq<Seg>, whl: Tok, c: Cond, semi: Tok)
    requires Clean(x)
    ensures Begins([Seg(DoLike, kw)] + (x + ([Seg(ForLike, whl)] + (CondScraps(c) + [Seg(Semi, semi)]))), DoLike)
  {
    hide CondScraps;
    CondForm(c);
    CleanConcat(CondScraps(c), [Seg(Semi, semi)]);
    CleanConcat([Seg(ForLike, whl)], CondScraps(c) + [Seg(Semi, semi)]);
    CleanConcat(x, [Seg(ForLike, whl)] + (CondScraps(c) + [Seg(Semi, semi)]));
    CleanConcat([Seg(DoLike, kw)], x + ([Seg(ForLike, whl)] + (CondScraps(c) + [Seg(Semi, semi)])));
  }

  lemma {:induction false} TailForm(tail: IfTail)
    ensures Clean(TailScraps(tail)) && |TailScraps(tail)| >= 5 && TailScraps(tail)[0].cat == Lpar
    decreases tail
  {
    hide CondScraps, ExScraps;
    CondForm(tail.c);
    Form(tail.s);
    match tail
    case Then(c, s) => CleanConcat(CondScraps(c), Scraps(s));
    case Else(c, s, els, other) =>
      Form(other);
      CleanConcat([Seg(ElseLike, els)], Scraps(other));
      CleanConcat(Scraps(s), [Seg(ElseLike, els)] + Scraps(other));
      CleanConcat(CondScraps(c), Scraps(s) + ([Seg(ElseLike, els)] + Scraps(other)));
  }

  function FirstOf(ss: Stms): Stm {
    match ss
    case One(s) => s
    case More(front, _) => FirstOf(front)
  }

  lemma {:induction false} AllForm(ss: Stms)
    ensures Begins(AllScraps(ss), First(FirstOf(ss)))
    decreases ss
  {
    match ss
    case One(s) => Form(s);
    case More(front, s) =>
      AllForm(front);
      Form(s);
      CleanConcat(AllScraps(front), Scraps(s));
  }

  lemma {:induction false} BeginsMore(x: seq<Seg>, y: seq<Seg>, c: Cat)
    requires Begins(x, c) && Clean(y)
    ensures Begins(x + y, c)
  {
    CleanConcat(x, y);
  }

  // ----- Expressions and conditions -----

  /** What begins with this category can stand here. */
  predicate Open(left: seq<Seg>, c: Cat) {
    Pending(left) && (left != [] ==> Holds(left[|left| - 1].cat, c))
  }

  lemma {:induction false} OpenPending(left: seq<Seg>, c: Cat)
    requires Open(left, c)
    ensures Pending(left)
  {
  }

  lemma {:induction false} OpenMore(left: seq<Seg>, x: Seg, c: Cat)
    requires Open(left, x.cat) && Waits(x.cat) && Holds(x.cat, c)
    ensures Open(left + [x], c)
  {
    hide Waits, Holds, Pending;
    PendingMore(left, x);
  }

  lemma {:induction false} ExFits(left: seq<Seg>, x: Seg, rest: seq<Seg>)
    requires Open(left, Exp) && x.cat == Exp && rest != [] && rest[0].cat in {Binop, Semi, RawRpar}
    ensures Fits(left, [x] + rest) && Pending(left)
  {
    hide Pending, Holds;
  }

  lemma {:induction false} MadeOp(a: Tok, op: Tok, b: Tok, f: bool)
    ensures Made(3, [Seg(Exp, a), Seg(Binop, op), Seg(Exp, b)], f) == Seg(Exp, Join([a, op, b]))
  {
    hide Join;
  }

  /** Production 3. */
  lemma {:induction false} OpFires(left: seq<Seg>, a: Tok, op: Tok, b: Tok, rest: seq<Seg>, g: Goal)
    requires Open(left, Exp) && rest != [] && rest[0].cat in {Binop, Semi, RawRpar}
    requires GoodFrom(left, [Seg(Exp, Join([a, op, b]))] + rest, 0, g)
    ensures GoodFrom(left, [Seg(Exp, a)] + ([Seg(Binop, op), Seg(Exp, b)] + rest), 0, g)
  {
    hide GoodFrom, Pending, Clean, Join, Made, View, Fits, Open;
    var run, x := [Seg(Exp, a), Seg(Binop, op), Seg(Exp, b)], Seg(Exp, Join([a, op, b]));
    Few(run);
    ExFits(left, x, rest);
    Walk(left, [x] + rest, -2, g);
    MadeOp(a, op, b, g.f);
    ViewRun(run, rest);
    Fire(3, left, run, rest, g);
    assert run + rest == [Seg(Exp, a)] + ([Seg(Binop, op), Seg(Exp, b)] + rest);
  }

  lemma {:induction false} ParseEx(left: seq<Seg>, e: Ex, rest: seq<Seg>, g: Goal)
    requires Open(left, Exp) && rest != [] && rest[0].cat in {Binop, Semi, RawRpar}
    requires GoodFrom(left, [Seg(Exp, ExText(e))] + rest, 0, g)
    ensures GoodFrom(left, ExScraps(e) + rest, 0, g)
  {
    hide GoodFrom, Open, Join;
    match e
    case Var(x) =>
    case Op(l, op, x) =>
      var more := [Seg(Binop, op), Seg(Exp, x)];
      OpFires(left, ExText(l), op, x, rest, g);
      ParseEx(left, l, more + rest, g);
      assert ExScraps(l) + (more + rest) == ExScraps(e) + rest;
  }

  /** Productions 57 and 58: what becomes of a keyword and its condition. */
  predicate Heads(kw: Cat, c: Cat) {
    (kw == IfLike && c == IfClause) || (kw == ForLike && c == ElseLike)
  }

  /** What begins a statement, or ends one. */
  predicate Starter(c: Cat) {
    c in {Exp, Lbrace, IfLike, ForLike, DoLike, Semi}
  }

  lemma {:induction false} MadeHead(n: nat, kw: Seg, inner: Tok, f: bool)
    requires n == 57 || n == 58
    ensures Made(n, [kw, Seg(Exp, inner)], f) == Seg(if n == 57 then IfClause else ElseLike, Join([kw.seen, M(Ch(' ')), inner]))
  {
    hide Join;
  }

  lemma {:induction false} HeadFits(left: seq<Seg>, kw: Seg, inner: Tok, rest: seq<Seg>)
    requires Open(left, kw.cat) && kw.cat in {IfLike, ForLike}
    ensures Fits(left, [kw, Seg(Exp, inner)] + rest) && Pending(left)
  {
    hide Pending, Holds;
  }

  lemma {:induction false} HeadFires(left: seq<Seg>, kw: Seg, inner: Tok, new_: Seg, rest: seq<Seg>, g: Goal)
    requires Open(left, kw.cat) && Heads(kw.cat, new_.cat) && new_.seen == Join([kw.seen, M(Ch(' ')), inner])
    requires kw.cat == IfLike ==> |rest| >= 2
    requires var d := if kw.cat == IfLike then 0 else -2;
      EndsFrom(left, [new_] + rest, d, g) && (|rest| >= 2 ==> GoodFrom(left, [new_] + rest, d, g))
    ensures GoodFrom(left + [kw], [Seg(Exp, inner)] + rest, -2, g)
  {
    hide GoodFrom, EndsFrom, Clean, Join, Enough, Made, View, Fits, Open;
    var n, run := if kw.cat == IfLike then 57 else 58, [kw, Seg(Exp, inner)];
    Few(run);
    MadeHead(n, kw, inner, g.f);
    if |rest| >= 2 { EnoughRest(left, rest, Back(n)); }
    ViewRun(run, rest);
    FiresFrom(n, left, run, rest, g);
    HeadFits(left, kw, inner, rest);
    Walk(left, run + rest, -1, g);
    assert left + (run + rest) == left + [kw] + ([Seg(Exp, inner)] + rest);
    SamePlace(left, run + rest, -1, left + [kw], [Seg(Exp, inner)] + rest, -2, g);
  }

  lemma {:induction false} EnoughRest(left: seq<Seg>, rest: seq<Seg>, d: int)
    requires |rest| >= 2 && d <= 0
    ensures Enough(left, rest, d)
  {
  }

  lemma {:induction false} MadeParens(a: Tok, e: Tok, b: Tok, f: bool)
    ensures Made(11, [Seg(Lpar, a), Seg(Exp, e), Seg(Rpar, b)], f) == Seg(Exp, Join([a, e, b]))
  {
    hide Join;
  }

  lemma {:induction false} ParensFire(left: seq<Seg>, kw: Seg, a: Tok, e: Tok, b: Tok, rest: seq<Seg>, g: Goal)
    requires kw.cat in {IfLike, ForLike} && rest != []
    requires GoodFrom(left + [kw], [Seg(Exp, Join([a, e, b]))] + rest, -2, g)
    ensures GoodFrom(left, [kw] + ([Seg(Lpar, a), Seg(Exp, e), Seg(Rpar, b)] + rest), 0, g)
  {
    hide GoodFrom, Clean, Join, Made, View;
    var run := [Seg(Lpar, a), Seg(Exp, e), Seg(Rpar, b)];
    Few(run);
    MadeParens(a, e, b, g.f);
    ViewRun(run, rest);
    Fire(11, left + [kw], run, rest, g);
    ViewRun([kw], run + rest);
    Quiet(left, kw, run + rest, g);
  }

  /** The end of a condition: productions 104, 11, and 57 or 58. */
  lemma {:induction false} CondEnds(left: seq<Seg>, kw: Seg, a: Tok, e: Tok, b: Tok, rest: seq<Seg>, g: Goal)
    requires kw.cat in {IfLike, ForLike} && rest != [] && Starter(rest[0].cat)
    requires GoodFrom(left + [kw], [Seg(Exp, Join([a, e, b]))] + rest, -2, g)
    ensures GoodFrom(left + [kw, Seg(Lpar, a)], [Seg(Exp, e)] + ([Seg(RawRpar, b)] + rest), 0, g)
  {
    hide GoodFrom, Join, View;
    var mid, x, far := left + [kw, Seg(Lpar, a)], Seg(Exp, e), left + [kw, Seg(Lpar, a), Seg(Exp, e)];
    ParensFire(left, kw, a, e, b, rest, g);
    var right := [kw] + ([Seg(Lpar, a), Seg(Exp, e), Seg(Rpar, b)] + rest);
    assert left + right == far + ([Seg(Rpar, b)] + rest);
    SamePlace(left, right, 0, far, [Seg(Rpar, b)] + rest, -3, g);
    ViewRun([Seg(RawRpar, b)], rest);
    Change(104, far, Seg(RawRpar, b), rest, g);
    assert mid + [x] == far;
    ViewRun([x], [Seg(RawRpar, b)] + rest);
    Quiet(mid, x, [Seg(RawRpar, b)] + rest, g);
  }

  /** A keyword and its condition. */
  lemma {:induction false} ParseCond(left: seq<Seg>, kw: Seg, c: Cond, new_: Seg, rest: seq<Seg>, g: Goal)
    requires Open(left, kw.cat) && Heads(kw.cat, new_.cat) && new_.seen == Headed(kw.seen, c)
    requires rest != [] && Starter(rest[0].cat) && (kw.cat == IfLike ==> |rest| >= 2)
    requires var d := if kw.cat == IfLike then 0 else -2;
      EndsFrom(left, [new_] + rest, d, g) && (|rest| >= 2 ==> GoodFrom(left, [new_] + rest, d, g))
    ensures GoodFrom(left, [kw] + (CondScraps(c) + rest), 0, g)
  {
    hide GoodFrom, EndsFrom, Join, Open, CondScraps;
    HeadFires(left, kw, Join([c.open, ExText(c.e), c.close]), new_, rest, g);
    CondEnds(left, kw, c.open, ExText(c.e), c.close, rest, g);
    CondParses(left, kw, c, rest, g);
  }

  lemma {:induction false} CondParses(left: seq<Seg>, kw: Seg, c: Cond, rest: seq<Seg>, g: Goal)
    requires Open(left, kw.cat) && kw.cat in {IfLike, ForLike}
    requires GoodFrom(left + [kw, Seg(Lpar, c.open)], [Seg(Exp, ExText(c.e))] + ([Seg(RawRpar, c.close)] + rest), 0, g)
    ensures GoodFrom(left, [kw] + (CondScraps(c) + rest), 0, g)
  {
    hide GoodFrom, View, Open, ExScraps;
    var a, b := Seg(Lpar, c.open), Seg(RawRpar, c.close);
    var x := ExScraps(c.e) + ([b] + rest);
    OpenMore(left, kw, Lpar);
    OpenMore(left + [kw], a, Exp);
    assert left + [kw] + [a] == left + [kw, a];
    ParseEx(left + [kw] + [a], c.e, [b] + rest, g);
    ViewRun([a], x);
    ExSecond(c.e, b, rest);
    Quiet(left + [kw], a, x, g);
    ViewRun([kw], [a] + x);
    Quiet(left, kw, [a] + x, g);
    CondRest(c, rest);
  }

  lemma {:induction false} CondRest(c: Cond, rest: seq<Seg>)
    ensures [Seg(Lpar, c.open)] + (ExScraps(c.e) + ([Seg(RawRpar, c.close)] + rest)) == CondScraps(c) + rest
  {
    hide ExScraps;
  }

  lemma {:induction false} ExSecond(e: Ex, b: Seg, rest: seq<Seg>)
    ensures CatOf(ExScraps(e) + ([b] + rest), 0) == Exp
    ensures CatOf(ExScraps(e) + ([b] + rest), 1) in {Binop, b.cat}
  {
    hide ExScraps;
    ExForm(e);
  }

  // ----- Statements -----

  /** The scrap behind a statement; an `else` would belong to it. */
  predicate Follows(s: Stm, rest: seq<Seg>) {
    Dangling(s) ==> CatOf(rest, 0) != ElseLike
  }

  lemma {:induction false} MadeDo(e: Tok, semi: Tok, f: bool)
    ensures Made(6, [Seg(Exp, e), Seg(Semi, semi)], f) == Seg(Stmt, Join([e, semi]))
  {
    hide Join;
  }

  lemma {:induction false} ParseDo(left: seq<Seg>, e: Ex, semi: Tok, rest: seq<Seg>, g: Goal)
    requires Open(left, Exp) && GoodFrom(left, [Seg(Stmt, Join([ExText(e), semi]))] + rest, -1, g)
    ensures GoodFrom(left, ExScraps(e) + [Seg(Semi, semi)] + rest, 0, g)
  {
    hide GoodFrom, Open, Join, View, Made;
    var run, end := [Seg(Exp, ExText(e)), Seg(Semi, semi)], [Seg(Semi, semi)];
    Few(run);
    MadeDo(ExText(e), semi, g.f);
    ViewRun(run, rest);
    Fire(6, left, run, rest, g);
    assert run + rest == [Seg(Exp, ExText(e))] + (end + rest);
    ParseEx(left, e, end + rest, g);
    assert ExScraps(e) + (end + rest) == ExScraps(e) + end + rest;
  }

  lemma {:induction false} MadeEmpty(open: Tok, close: Tok, f: bool)
    ensures Made(54, [Seg(Lbrace, open), Seg(Rbrace, close)], f) == Seg(Stmt, Join([open, M(Ch('\\')), M(Ch(',')), close]))
  {
    hide Join;
  }

  lemma {:induction false} ParseEmpty(left: seq<Seg>, open: Tok, close: Tok, rest: seq<Seg>, g: Goal)
    requires GoodFrom(left, [Seg(Stmt, Join([open, M(Ch('\\')), M(Ch(',')), close]))] + rest, -1, g)
    ensures GoodFrom(left, [Seg(Lbrace, open), Seg(Rbrace, close)] + rest, 0, g)
  {
    hide GoodFrom, Join, View, Made;
    var run := [Seg(Lbrace, open), Seg(Rbrace, close)];
    Few(run);
    MadeEmpty(open, close, g.f);
    ViewRun(run, rest);
    Fire(54, left, run, rest, g);
  }

  // ----- Heads and what is under them -----

  predicate Head(c: Cat) {
    c in {IfLike, ForLike, DoLike, IfClause, IfHead, ElseLike, ElseHead}
  }

  lemma {:induction false} OpenHead(left: seq<Seg>, c: Cat, c': Cat)
    requires Open(left, c) && Head(c) && Head(c')
    ensures Open(left, c')
  {
    hide Pending;
  }

  lemma {:induction false} MadeUnder(x: Seg, text: Tok, f: bool)
    requires x.cat in {ElseLike, ElseHead}
    ensures Made(if x.cat == ElseHead then 61 else 60, [x, Seg(Stmt, text)], f)
      == Seg(Stmt, if x.cat == ElseHead then Join([M(Force), x.seen, M(BreakSpace), M(Noop), M(Cancel), text, M(Force)])
                   else Join([M(Force), x.seen, M(Indent), M(BreakSpace), text, M(Outdent), M(Force)]))
  {
    hide Join;
  }

  /** The head before the statement s. */
  function HeadFor(s: Stm, els: bool): Cat {
    if els then (if Compound(s) then ElseHead else ElseLike) else (if Compound(s) then IfHead else IfClause)
  }

  /** Productions 60 and 61. */
  lemma {:induction false} UnderFires(left: seq<Seg>, head: Tok, s: Stm, text: Tok, rest: seq<Seg>, g: Goal)
    requires GoodFrom(left, [Seg(Stmt, Under(head, s, text))] + rest, -1, g)
    ensures GoodFrom(left, [Seg(HeadFor(s, true), head), Seg(Stmt, text)] + rest, 0, g)
  {
    hide GoodFrom, Join, View, Made;
    var x := Seg(HeadFor(s, true), head);
    var run := [x, Seg(Stmt, text)];
    Few(run);
    MadeUnder(x, text, g.f);
    ViewRun(run, rest);
    Fire(if Compound(s) then 61 else 60, left, run, rest, g);
  }

  /** Productions 65 and 68: no `else` follows. */
  lemma {:induction false} ThenFires(left: seq<Seg>, head: Tok, s: Stm, text: Tok, rest: seq<Seg>, g: Goal)
    requires CatOf(rest, 0) != ElseLike && GoodFrom(left, [Seg(Stmt, Under(head, s, text))] + rest, -1, g)
    ensures GoodFrom(left, [Seg(HeadFor(s, false), head)] + ([Seg(Stmt, text)] + rest), 0, g)
  {
    hide GoodFrom, Under, View, Applies;
    var x, more := Seg(HeadFor(s, false), head), [Seg(Stmt, text)] + rest;
    UnderFires(left, head, s, text, rest, g);
    assert [Seg(HeadFor(s, true), head), Seg(Stmt, text)] + rest == [Seg(HeadFor(s, true), head)] + more;
    ThenApplies(x, text, rest);
    Change(if Compound(s) then 68 else 65, left, x, more, g);
  }

  lemma {:induction false} ThenApplies(x: Seg, text: Tok, rest: seq<Seg>)
    requires x.cat in {IfClause, IfHead} && CatOf(rest, 0) != ElseLike
    ensures Applies(if x.cat == IfHead then 68 else 65, View([x] + ([Seg(Stmt, text)] + rest), 0))
  {
    ViewRun([x], [Seg(Stmt, text)] + rest);
  }

  /** A head, and the scraps of the statement under it. */
  lemma {:induction false} HeadChanges(left: seq<Seg>, els: bool, head: Tok, s: Stm, rest: seq<Seg>, g: Goal)
    requires GoodFrom(left + [Seg(HeadFor(s, els), head)], Scraps(s) + rest, 0, g)
    ensures GoodFrom(left, [Seg(if els then ElseLike else IfClause, head)] + (Scraps(s) + rest), 0, g)
  {
    hide GoodFrom, View, Scraps;
    var x, y := Seg(HeadFor(s, els), head), Seg(if els then ElseLike else IfClause, head);
    Form(s);
    ViewRun([x], Scraps(s) + rest);
    ViewRun([y], Scraps(s) + rest);
    Quiet(left, x, Scraps(s) + rest, g);
    if Compound(s) {
      Change(if els then 59 else 62, left, y, Scraps(s) + rest, g);
    }
  }

  lemma {:induction false} HeadOpens(left: seq<Seg>, c: Cat, els: bool, head: Tok, s: Stm)
    requires Open(left, c) && Head(c)
    ensures Open(left + [Seg(HeadFor(s, els), head)], First(s))
  {
    hide Pending;
    var x := Seg(HeadFor(s, els), head);
    OpenHead(left, c, x.cat);
    OpenMore(left, x, First(s));
  }

  lemma {:induction false} MadeElse(x: Seg, text: Tok, els: Tok, f: bool)
    requires x.cat in {IfClause, IfHead}
    ensures Made(if x.cat == IfHead then 67 else 64, [x, Seg(Stmt, text), Seg(ElseLike, els)], f)
      == Seg(ElseLike, if x.cat == IfHead then Join([M(Force), x.seen, M(BreakSpace), M(Noop), M(Cancel), text, M(Force), els])
                       else Join([M(Force), x.seen, M(Indent), M(BreakSpace), text, M(Outdent), M(Force), els]))
  {
    hide Join;
  }

  lemma {:induction false} MadeElseIf(x: Seg, text: Tok, els: Tok, kw: Tok, f: bool)
    requires x.cat in {IfClause, IfHead}
    ensures Made(if x.cat == IfHead then 66 else 63, [x, Seg(Stmt, text), Seg(ElseLike, els), Seg(IfLike, kw)], f)
      == Seg(IfLike,
             if x.cat == IfHead then
               Join([M(Force), x.seen, M(BreakSpace), M(Noop), M(Cancel), text, M(Force), els, M(Ch(' ')), kw])
             else Join([M(Force), x.seen, M(Indent), M(BreakSpace), text, M(Outdent), M(Force), els, M(Ch(' ')), kw]))
  {
    hide Join;
  }

  lemma {:induction false} JoinConcat(a: seq<Tok>, b: seq<Tok>)
    ensures Join(a + b) == Join(a) + Join(b)
  {
    if a == [] {
      assert a + b == b && Join(a) + Join(b) == Join(b);
    } else {
      JoinConcat(a[1..], b);
      assert (a + b)[1..] == a[1..] + b && (a + b)[0] == a[0];
      Associative(a[0], Join(a[1..]), Join(b));
    }
  }

  lemma {:induction false} JoinOne(a: Tok)
    ensures Join([a]) == a
  {
    assert [a][1..] == [];
    assert Join([]) == [] && a + [] == a;
  }

  lemma {:induction false} JoinThree(a: Tok, b: Tok, c: Tok)
    ensures Join([a, b, c]) == a + b + c
  {
    assert [a, b, c] == [a] + ([b] + [c]);
    JoinConcat([a], [b] + [c]);
    JoinConcat([b], [c]);
    JoinOne(a);
    JoinOne(b);
    JoinOne(c);
  }

  lemma {:induction false} UnderElse(head: Tok, s: Stm, text: Tok, els: Tok)
    ensures Under(head, s, text) + els
      == if Compound(s) then Join([M(Force), head, M(BreakSpace), M(Noop), M(Cancel), text, M(Force), els])
         else Join([M(Force), head, M(Indent), M(BreakSpace), text, M(Outdent), M(Force), els])
  {
    hide Join, M;
    JoinOne(els);
    if Compound(s) {
      JoinConcat([M(Force), head, M(BreakSpace), M(Noop), M(Cancel), text, M(Force)], [els]);
      assert [M(Force), head, M(BreakSpace), M(Noop), M(Cancel), text, M(Force)] + [els]
          == [M(Force), head, M(BreakSpace), M(Noop), M(Cancel), text, M(Force), els];
    } else {
      JoinConcat([M(Force), head, M(Indent), M(BreakSpace), text, M(Outdent), M(Force)], [els]);
      assert [M(Force), head, M(Indent), M(BreakSpace), text, M(Outdent), M(Force)] + [els]
          == [M(Force), head, M(Indent), M(BreakSpace), text, M(Outdent), M(Force), els];
    }
  }

  lemma {:induction false} UnderElseIf(head: Tok, s: Stm, text: Tok, els: Tok, kw: Tok)
    ensures Under(head, s, text) + els + M(Ch(' ')) + kw
      == if Compound(s) then Join([M(Force), head, M(BreakSpace), M(Noop), M(Cancel), text, M(Force), els, M(Ch(' ')), kw])
         else Join([M(Force), head, M(Indent), M(BreakSpace), text, M(Outdent), M(Force), els, M(Ch(' ')), kw])
  {
    hide Join, M;
    var more := [els, M(Ch(' ')), kw];
    JoinThree(els, M(Ch(' ')), kw);
    Assoc4(Under(head, s, text), els, M(Ch(' ')), kw);
    if Compound(s) {
      JoinConcat([M(Force), head, M(BreakSpace), M(Noop), M(Cancel), text, M(Force)], more);
      assert [M(Force), head, M(BreakSpace), M(Noop), M(Cancel), text, M(Force)] + more
          == [M(Force), head, M(BreakSpace), M(Noop), M(Cancel), text, M(Force), els, M(Ch(' ')), kw];
    } else {
      JoinConcat([M(Force), head, M(Indent), M(BreakSpace), text, M(Outdent), M(Force)], more);
      assert [M(Force), head, M(Indent), M(BreakSpace), text, M(Outdent), M(Force)] + more
          == [M(Force), head, M(Indent), M(BreakSpace), text, M(Outdent), M(Force), els, M(Ch(' ')), kw];
    }
  }

  lemma {:induction false} Assoc4(a: Tok, b: Tok, c: Tok, d: Tok)
    ensures a + (b + c + d) == a + b + c + d
  {
  }

  lemma {:induction false} CleanElse(x: Seg, text: Tok, els: Tok, kw: Tok)
    requires x.cat in {IfClause, IfHead}
    ensures Clean([x, Seg(Stmt, text), Seg(ElseLike, els)])
    ensures Clean([x, Seg(Stmt, text), Seg(ElseLike, els), Seg(IfLike, kw)])
  {
  }

  /** Productions 64 and 67. */
  lemma {:induction false} ElseFires(left: seq<Seg>, head: Tok, s: Stm, text: Tok, els: Tok, rest: seq<Seg>, g: Goal)
    requires |rest| >= 2 && rest[0].cat != IfLike
    requires GoodFrom(left, [Seg(ElseLike, Under(head, s, text) + els)] + rest, 0, g)
    ensures GoodFrom(left, [Seg(HeadFor(s, false), head)] + ([Seg(Stmt, text)] + ([Seg(ElseLike, els)] + rest)), 0, g)
  {
    hide GoodFrom, Join, Made, Under, Clean, Applies, View, CleanCat;
    var x := Seg(HeadFor(s, false), head);
    var run := [x, Seg(Stmt, text), Seg(ElseLike, els)];
    CleanElse(x, text, els, []);
    MadeElse(x, text, els, g.f);
    UnderElse(head, s, text, els);
    ElseApplies(x, text, els, rest);
    Fire(if Compound(s) then 67 else 64, left, run, rest, g);
    Nested3(x, Seg(Stmt, text), Seg(ElseLike, els), rest);
  }

  lemma {:induction false} ElseApplies(x: Seg, text: Tok, els: Tok, rest: seq<Seg>)
    requires x.cat in {IfClause, IfHead} && rest != [] && rest[0].cat != IfLike
    ensures Applies(if x.cat == IfHead then 67 else 64, View([x, Seg(Stmt, text), Seg(ElseLike, els)] + rest, 0))
  {
    ViewRun([x, Seg(Stmt, text), Seg(ElseLike, els)], rest);
  }

  lemma {:induction false} Nested3(x: Seg, y: Seg, z: Seg, rest: seq<Seg>)
    ensures [x, y, z] + rest == [x] + ([y] + ([z] + rest))
  {
  }

  /** Productions 63 and 66. */
  lemma {:induction false} ElseIfFires(left: seq<Seg>, head: Tok, s: Stm, text: Tok, els: Tok, kw: Tok, rest: seq<Seg>, g: Goal)
    requires |rest| >= 2
    requires GoodFrom(left, [Seg(IfLike, Under(head, s, text) + els + M(Ch(' ')) + kw)] + rest, 0, g)
    ensures GoodFrom(left, [Seg(HeadFor(s, false), head)] + ([Seg(Stmt, text)] + ([Seg(ElseLike, els)] + ([Seg(IfLike, kw)] + rest))), 0, g)
  {
    hide GoodFrom, Join, Made, Under, Clean, Applies, View, CleanCat;
    var x := Seg(HeadFor(s, false), head);
    var run := [x, Seg(Stmt, text), Seg(ElseLike, els), Seg(IfLike, kw)];
    CleanElse(x, text, els, kw);
    MadeElseIf(x, text, els, kw, g.f);
    UnderElseIf(head, s, text, els, kw);
    ElseIfApplies(x, text, els, kw, rest);
    Fire(if Compound(s) then 66 else 63, left, run, rest, g);
    Nested4(x, Seg(Stmt, text), Seg(ElseLike, els), Seg(IfLike, kw), rest);
  }

  lemma {:induction false} ElseIfApplies(x: Seg, text: Tok, els: Tok, kw: Tok, rest: seq<Seg>)
    requires x.cat in {IfClause, IfHead}
    ensures Applies(if x.cat == IfHead then 66 else 63, View([x, Seg(Stmt, text), Seg(ElseLike, els), Seg(IfLike, kw)] + rest, 0))
  {
    ViewRun([x, Seg(Stmt, text), Seg(ElseLike, els), Seg(IfLike, kw)], rest);
  }

  lemma {:induction false} Nested4(x: Seg, y: Seg, z: Seg, w: Seg, rest: seq<Seg>)
    ensures [x, y, z, w] + rest == [x] + ([y] + ([z] + ([w] + rest)))
  {
  }

  // ----- Any statement -----

  /** The scraps of s, anywhere, are made one stmt with its layout. */
  lemma {:induction false} Parse(left: seq<Seg>, s: Stm, rest: seq<Seg>, g: Goal)
    requires Proper(s) && Open(left, First(s)) && Follows(s, rest)
    requires GoodFrom(left, [Seg(Stmt, Layout(s, g.f))] + rest, -1, g)
    ensures GoodFrom(left, Scraps(s) + rest, 0, g)
    decreases s, 0
  {
    hide GoodFrom, Open, Join, CondScraps, Under, Headed;
    match s
    case Do(e, semi) => ParseDo(left, e, semi, rest, g);
    case Empty(open, close) => ParseEmpty(left, open, close, rest, g);
    case Block(open, body, close) => ParseBlock(left, open, body, close, rest, g);
    case If(kw, tail) =>
      ParseTail(left, kw, tail, rest, g);
      assert [Seg(IfLike, kw)] + (TailScraps(tail) + rest) == Scraps(s) + rest;
    case While(kw, c, s') =>
      ParseWhile(left, kw, c, s', rest, g);
      WhileRest(kw, c, s', rest);
    case DoWhile(kw, s', whl, c, semi) =>
      ParseDoWhile(left, kw, s', whl, c, semi, rest, g);
      DoWhileRest(kw, s', whl, c, semi, rest);
  }

  lemma {:induction false} WhileRest(kw: Tok, c: Cond, s: Stm, rest: seq<Seg>)
    ensures [Seg(ForLike, kw)] + (CondScraps(c) + (Scraps(s) + rest)) == Scraps(While(kw, c, s)) + rest
  {
    hide CondScraps;
  }

  lemma {:induction false} DoWhileRest(kw: Tok, s: Stm, whl: Tok, c: Cond, semi: Tok, rest: seq<Seg>)
    ensures [Seg(DoLike, kw)] + (Scraps(s) + ([Seg(ForLike, whl)] + (CondScraps(c) + ([Seg(Semi, semi)] + rest))))
         == Scraps(DoWhile(kw, s, whl, c, semi)) + rest
  {
    hide CondScraps;
    var x, y, z, w := [Seg(DoLike, kw)], Scraps(s), [Seg(ForLike, whl)], CondScraps(c);
    Assoc5(x, y, z, w, [Seg(Semi, semi)], rest);
  }

  lemma {:induction false} Assoc5(x: seq<Seg>, y: seq<Seg>, z: seq<Seg>, w: seq<Seg>, v: seq<Seg>, rest: seq<Seg>)
    ensures x + (y + (z + (w + (v + rest)))) == x + (y + (z + (w + v))) + rest
  {
  }

  lemma {:induction false} ParseUnder(left: seq<Seg>, head: Tok, s: Stm, rest: seq<Seg>, g: Goal)
    requires Proper(s) && Open(left, ElseLike) && Follows(s, rest)
    requires GoodFrom(left, [Seg(Stmt, Under(head, s, Layout(s, g.f)))] + rest, -1, g)
    ensures GoodFrom(left, [Seg(ElseLike, head)] + (Scraps(s) + rest), 0, g)
    decreases s, 1
  {
    hide GoodFrom, Open, Under, Layout, Scraps, HeadFor;
    var text, x := Layout(s, g.f), Seg(HeadFor(s, true), head);
    UnderFires(left, head, s, text, rest, g);
    HeadOpens(left, ElseLike, true, head, s);
    assert left + ([x, Seg(Stmt, text)] + rest) == left + [x] + ([Seg(Stmt, text)] + rest);
    SamePlace(left, [x, Seg(Stmt, text)] + rest, 0, left + [x], [Seg(Stmt, text)] + rest, -1, g);
    Parse(left + [x], s, rest, g);
    HeadChanges(left, true, head, s, rest, g);
  }

  lemma {:induction false} ParseClause(left: seq<Seg>, head: Tok, s: Stm, rest: seq<Seg>, g: Goal)
    requires Proper(s) && Open(left, IfClause) && Follows(s, rest)
    requires GoodFrom(left, [Seg(HeadFor(s, false), head)] + ([Seg(Stmt, Layout(s, g.f))] + rest), 0, g)
    ensures GoodFrom(left, [Seg(IfClause, head)] + (Scraps(s) + rest), 0, g)
    decreases s, 1
  {
    hide GoodFrom, Open, Layout, Scraps, HeadFor;
    var text, x := Layout(s, g.f), Seg(HeadFor(s, false), head);
    HeadOpens(left, IfClause, false, head, s);
    assert left + ([x] + ([Seg(Stmt, text)] + rest)) == left + [x] + ([Seg(Stmt, text)] + rest);
    SamePlace(left, [x] + ([Seg(Stmt, text)] + rest), 0, left + [x], [Seg(Stmt, text)] + rest, -1, g);
    Parse(left + [x], s, rest, g);
    HeadChanges(left, false, head, s, rest, g);
  }

  lemma {:induction false} ParseWhile(left: seq<Seg>, kw: Tok, c: Cond, s: Stm, rest: seq<Seg>, g: Goal)
    requires Proper(s) && Open(left, ForLike) && Follows(s, rest)
    requires GoodFrom(left, [Seg(Stmt, Under(Headed(kw, c), s, Layout(s, g.f)))] + rest, -1, g)
    ensures GoodFrom(left, [Seg(ForLike, kw)] + (CondScraps(c) + (Scraps(s) + rest)), 0, g)
    decreases s, 2
  {
    hide GoodFrom, EndsFrom, Open, Layout, Under, Headed, Scraps, CondScraps, Fits;
    var x, more := Seg(ElseLike, Headed(kw, c)), Scraps(s) + rest;
    OpenHead(left, ForLike, ElseLike);
    ParseUnder(left, Headed(kw, c), s, rest, g);
    Form(s);
    LoopFits(left, x, s, rest);
    Walk(left, [x] + more, -2, g);
    GoodEndsFrom(left, [x] + more, -2, g);
    ParseCond(left, Seg(ForLike, kw), c, x, more, g);
  }

  lemma {:induction false} LoopFits(left: seq<Seg>, x: Seg, s: Stm, rest: seq<Seg>)
    requires Open(left, ElseLike) && x.cat == ElseLike
    ensures Fits(left, [x] + (Scraps(s) + rest)) && Pending(left)
  {
    hide Pending, Holds, Scraps;
    Form(s);
  }

  lemma {:induction false} ParseTail(left: seq<Seg>, head: Tok, tail: IfTail, rest: seq<Seg>, g: Goal)
    requires Proper(If(head, tail)) && Open(left, IfLike) && Follows(If(head, tail), rest)
    requires GoodFrom(left, [Seg(Stmt, IfLayout(head, tail, g.f))] + rest, -1, g)
    ensures GoodFrom(left, [Seg(IfLike, head)] + (TailScraps(tail) + rest), 0, g)
    decreases tail, 0
  {
    hide GoodFrom, EndsFrom, Open, Layout, Under, Headed, Scraps, CondScraps, HeadFor;
    var clause := Headed(head, tail.c);
    OpenHead(left, IfLike, IfClause);
    var more: seq<Seg>;
    if tail.Then? {
      more := rest;
      ThenFires(left, clause, tail.s, Layout(tail.s, g.f), rest, g);
    } else {
      more := [Seg(ElseLike, tail.els)] + (Scraps(tail.other) + rest);
      ParseElse(left, clause, tail.s, tail.els, tail.other, rest, g);
    }
    ParseClause(left, clause, tail.s, more, g);
    Form(tail.s);
    var x := Seg(IfClause, clause);
    GoodEndsFrom(left, [x] + (Scraps(tail.s) + more), 0, g);
    ParseCond(left, Seg(IfLike, head), tail.c, x, Scraps(tail.s) + more, g);
    TailRest(tail, rest);
  }

  lemma {:induction false} TailRest(tail: IfTail, rest: seq<Seg>)
    ensures TailScraps(tail) + rest
      == CondScraps(tail.c) + (Scraps(tail.s) + if tail.Then? then rest else [Seg(ElseLike, tail.els)] + (Scraps(tail.other) + rest))
  {
    hide Scraps, CondScraps;
  }

  /** The statement behind `else`, with the `if` and its statement already made. */
  lemma {:induction false} ParseElse(left: seq<Seg>, clause: Tok, s: Stm, els: Tok, other: Stm, rest: seq<Seg>, g: Goal)
    requires Proper(other) && Open(left, IfClause) && Follows(other, rest)
    requires var first := Under(clause, s, Layout(s, g.f)) + els;
      GoodFrom(left, [Seg(Stmt, if other.If? then IfLayout(first + M(Ch(' ')) + other.kw, other.tail, g.f)
                                else Under(first, other, Layout(other, g.f)))] + rest, -1, g)
    ensures GoodFrom(left, [Seg(HeadFor(s, false), clause)] + ([Seg(Stmt, Layout(s, g.f))]
                       + ([Seg(ElseLike, els)] + (Scraps(other) + rest))), 0, g)
    decreases other, 2
  {
    hide GoodFrom, Open, Layout, Under, Scraps, HeadFor;
    var text := Layout(s, g.f);
    var first := Under(clause, s, text) + els;
    Form(other);
    if other.If? {
      var head := first + M(Ch(' ')) + other.kw;
      OpenHead(left, IfClause, IfLike);
      ParseTail(left, head, other.tail, rest, g);
      TailForm(other.tail);
      ElseIfFires(left, clause, s, text, els, other.kw, TailScraps(other.tail) + rest, g);
      IfRest(other.kw, other.tail, rest);
    } else {
      OpenHead(left, IfClause, ElseLike);
      ParseUnder(left, first, other, rest, g);
      NotIf(other);
      ElseFires(left, clause, s, text, els, Scraps(other) + rest, g);
    }
  }

  lemma {:induction false} IfRest(kw: Tok, tail: IfTail, rest: seq<Seg>)
    ensures [Seg(IfLike, kw)] + (TailScraps(tail) + rest) == Scraps(If(kw, tail)) + rest
  {
    hide TailScraps;
  }

  lemma {:induction false} NotIf(s: Stm)
    requires !s.If?
    ensures First(s) != IfLike
  {
  }

  // ----- Compound statements and do -----

  lemma {:induction false} MadeBlock(open: Tok, body: Tok, close: Tok, f: bool)
    ensures Made(55, [Seg(Lbrace, open), Seg(Stmt, body), Seg(Rbrace, close)], f)
      == Seg(Stmt, Join([M(Force), open, M(Indent), M(Force), body, M(Force), M(Backup), close, M(Outdent), M(Force)]))
  {
    hide Join;
  }

  /** Production 55. */
  lemma {:induction false} BlockFires(left: seq<Seg>, a: Seg, text: Tok, b: Seg, rest: seq<Seg>, g: Goal)
    requires a.cat == Lbrace && b.cat == Rbrace
    requires GoodFrom(left, [Seg(Stmt, Join([M(Force), a.seen, M(Indent), M(Force), text, M(Force), M(Backup), b.seen, M(Outdent), M(Force)]))]
                              + rest, -1, g)
    ensures GoodFrom(left + [a], [Seg(Stmt, text)] + ([b] + rest), -1, g)
  {
    hide GoodFrom, Join, View, Made, Clean;
    var run := [a, Seg(Stmt, text), b];
    Few(run);
    MadeBlock(a.seen, text, b.seen, g.f);
    ViewRun(run, rest);
    Fire(55, left, run, rest, g);
    Nested3(a, Seg(Stmt, text), b, rest);
    assert left + ([a] + ([Seg(Stmt, text)] + ([b] + rest))) == left + [a] + ([Seg(Stmt, text)] + ([b] + rest));
    SamePlace(left, run + rest, 0, left + [a], [Seg(Stmt, text)] + ([b] + rest), -1, g);
  }

  lemma {:induction false} ParseBlock(left: seq<Seg>, open: Tok, body: Stms, close: Tok, rest: seq<Seg>, g: Goal)
    requires ProperAll(body) && Open(left, Lbrace)
    requires GoodFrom(left, [Seg(Stmt, Layout(Stm.Block(open, body, close), g.f))] + rest, -1, g)
    ensures GoodFrom(left, [Seg(Lbrace, open)] + (AllScraps(body) + [Seg(Rbrace, close)]) + rest, 0, g)
    decreases body, 1
  {
    hide GoodFrom, Open, Join, View, AllScraps, AllLayout;
    var a, b := Seg(Lbrace, open), Seg(Rbrace, close);
    BlockFires(left, a, AllLayout(body, g.f), b, rest, g);
    OpenBlock(left, a);
    ParseAll(left + [a], body, [b] + rest, g);
    BlockStill(a, body, b, rest);
    Quiet(left, a, AllScraps(body) + ([b] + rest), g);
    Around(a, AllScraps(body), b, rest);
  }

  lemma {:induction false} BlockStill(a: Seg, body: Stms, b: Seg, rest: seq<Seg>)
    requires a.cat == Lbrace
    ensures Still(View([a] + (AllScraps(body) + ([b] + rest)), 0))
  {
    hide AllScraps;
    AllForm(body);
    NotRbrace(FirstOf(body));
    ViewRun([a], AllScraps(body) + ([b] + rest));
  }

  lemma {:induction false} Around(a: Seg, x: seq<Seg>, b: Seg, rest: seq<Seg>)
    ensures [a] + (x + ([b] + rest)) == [a] + (x + [b]) + rest
  {
  }

  lemma {:induction false} NotRbrace(s: Stm)
    ensures First(s) in {Exp, Lbrace, IfLike, ForLike, DoLike}
  {
  }

  /** A list of statements can stand here. */
  predicate OpenAll(left: seq<Seg>) {
    Pending(left) && (left != [] ==> left[|left| - 1].cat == Lbrace)
  }

  lemma {:induction false} OpenBlock(left: seq<Seg>, a: Seg)
    requires Open(left, Lbrace) && a.cat == Lbrace
    ensures OpenAll(left + [a])
  {
    hide Pending, Holds;
    PendingMore(left, a);
  }

  lemma {:induction false} AllOpens(left: seq<Seg>, c: Cat)
    requires OpenAll(left) && c in {Exp, Lbrace, IfLike, ForLike, DoLike, Stmt}
    ensures Open(left, c)
  {
    hide Pending;
  }

  lemma {:induction false} MadeMore(a: Tok, b: Tok, f: bool)
    ensures Made(76, [Seg(Stmt, a), Seg(Stmt, b)], f) == Seg(Stmt, Join([a, M(if f then Force else BreakSpace), b]))
  {
    hide Join;
  }

  /** The scraps of a list are made one stmt with its layout. */
  lemma {:induction false} ParseAll(left: seq<Seg>, ss: Stms, rest: seq<Seg>, g: Goal)
    requires ProperAll(ss) && OpenAll(left) && CatOf(rest, 0) != ElseLike
    requires GoodFrom(left, [Seg(Stmt, AllLayout(ss, g.f))] + rest, -1, g)
    ensures GoodFrom(left, AllScraps(ss) + rest, 0, g)
    decreases ss, 0
  {
    hide GoodFrom, OpenAll, Open, Join, Layout, Scraps;
    match ss
    case One(s) =>
      NotRbrace(s);
      AllOpens(left, First(s));
      Parse(left, s, rest, g);
    case More(front, s) =>
      MoreFires(left, AllLayout(front, g.f), Layout(s, g.f), rest, g);
      ParseNext(left, front, s, rest, g);
      Form(s);
      NotRbrace(s);
      assert AllScraps(front) + (Scraps(s) + rest) == AllScraps(ss) + rest;
      ParseAll(left, front, Scraps(s) + rest, g);
  }

  /** Production 76. */
  lemma {:induction false} MoreFires(left: seq<Seg>, a: Tok, b: Tok, rest: seq<Seg>, g: Goal)
    requires GoodFrom(left, [Seg(Stmt, Join([a, M(if g.f then Force else BreakSpace), b]))] + rest, -1, g)
    ensures GoodFrom(left + [Seg(Stmt, a)], [Seg(Stmt, b)] + rest, -1, g)
  {
    hide GoodFrom, Join, View, Made;
    var run := [Seg(Stmt, a), Seg(Stmt, b)];
    Few(run);
    MadeMore(a, b, g.f);
    ViewRun(run, rest);
    Fire(76, left, run, rest, g);
    assert left + (run + rest) == left + [Seg(Stmt, a)] + ([Seg(Stmt, b)] + rest);
    SamePlace(left, run + rest, 0, left + [Seg(Stmt, a)], [Seg(Stmt, b)] + rest, -1, g);
  }

  /** The statement s behind the stmt of those before it. */
  lemma {:induction false} ParseNext(left: seq<Seg>, front: Stms, s: Stm, rest: seq<Seg>, g: Goal)
    requires Proper(s) && OpenAll(left) && CatOf(rest, 0) != ElseLike
    requires GoodFrom(left + [Seg(Stmt, AllLayout(front, g.f))], [Seg(Stmt, Layout(s, g.f))] + rest, -1, g)
    ensures GoodFrom(left, [Seg(Stmt, AllLayout(front, g.f))] + (Scraps(s) + rest), -1, g)
    decreases s, 1
  {
    hide GoodFrom, OpenAll, Open, AllLayout, Layout, Scraps, View, Fits;
    var x := Seg(Stmt, AllLayout(front, g.f));
    NextOpens(left, x, s);
    Parse(left + [x], s, rest, g);
    Form(s);
    NotRbrace(s);
    ViewRun([x], Scraps(s) + rest);
    Quiet(left, x, Scraps(s) + rest, g);
    NextFits(left, x, s, rest);
    Walk(left, [x] + (Scraps(s) + rest), -1, g);
  }

  lemma {:induction false} NextOpens(left: seq<Seg>, x: Seg, s: Stm)
    requires OpenAll(left) && x.cat == Stmt
    ensures Open(left + [x], First(s))
  {
    hide Pending;
    NotRbrace(s);
    AllOpens(left, Stmt);
    OpenMore(left, x, First(s));
  }

  lemma {:induction false} NextFits(left: seq<Seg>, x: Seg, s: Stm, rest: seq<Seg>)
    requires OpenAll(left) && x.cat == Stmt
    ensures Fits(left, [x] + (Scraps(s) + rest)) && Pending(left)
  {
    hide Pending, Scraps;
    Form(s);
    NotRbrace(s);
  }

  lemma {:induction false} MadeLoop(kw: Tok, text: Tok, whl: Tok, semi: Tok, f: bool)
    ensures Made(69, [Seg(DoLike, kw), Seg(Stmt, text), Seg(ElseLike, whl), Seg(Semi, semi)], f)
      == Seg(Stmt, Join([kw, M(BreakSpace), M(Noop), M(Cancel), text, M(Cancel), M(Noop), M(BreakSpace), whl, semi]))
  {
    hide Join;
  }

  /** Production 69; at the end of the list the insert has been taken up before. */
  lemma {:induction false} LoopFires(left: seq<Seg>, kw: Tok, text: Tok, whl: Tok, semi: Tok, rest: seq<Seg>, g: Goal)
    requires GoodFrom(left, [Seg(Stmt, Join([kw, M(BreakSpace), M(Noop), M(Cancel), text, M(Cancel), M(Noop), M(BreakSpace), whl, semi]))]
                              + rest, -1, g)
    ensures var left', right := left + [Seg(DoLike, kw), Seg(Stmt, text)], [Seg(ElseLike, whl)] + ([Seg(Semi, semi)] + rest);
      EndsFrom(left', right, -2, g) && (rest != [] ==> GoodFrom(left', right, -2, g))
  {
    hide GoodFrom, EndsFrom, Join, View, Made, Enough, Clean, Applies;
    var run := [Seg(DoLike, kw), Seg(Stmt, text), Seg(ElseLike, whl), Seg(Semi, semi)];
    LoopRun(kw, text, whl, semi, rest);
    MadeLoop(kw, text, whl, semi, g.f);
    GoodEndsFrom(left, [Made(69, run, g.f)] + rest, -1, g);
    if rest != [] { EnoughOne(left, rest); }
    FiresFrom(69, left, run, rest, g);
    var left', right := left + [Seg(DoLike, kw), Seg(Stmt, text)], [Seg(ElseLike, whl)] + ([Seg(Semi, semi)] + rest);
    LoopPlace(left, run, rest);
    SameEnd(left, run + rest, 0, left', right, -2, g);
    if rest != [] { SamePlace(left, run + rest, 0, left', right, -2, g); }
  }

  lemma {:induction false} LoopRun(kw: Tok, text: Tok, whl: Tok, semi: Tok, rest: seq<Seg>)
    ensures var run := [Seg(DoLike, kw), Seg(Stmt, text), Seg(ElseLike, whl), Seg(Semi, semi)];
      Clean(run) && Applies(69, View(run + rest, 0))
  {
    ViewRun([Seg(DoLike, kw), Seg(Stmt, text), Seg(ElseLike, whl), Seg(Semi, semi)], rest);
  }

  lemma {:induction false} LoopPlace(left: seq<Seg>, run: seq<Seg>, rest: seq<Seg>)
    requires |run| == 4
    ensures left + (run + rest) == left + [run[0], run[1]] + ([run[2]] + ([run[3]] + rest))
  {
  }

  lemma {:induction false} EnoughOne(left: seq<Seg>, rest: seq<Seg>)
    requires rest != []
    ensures Enough(left, rest, -1)
  {
  }

  lemma {:induction false} SameEnd(left: seq<Seg>, right: seq<Seg>, d: int, left': seq<Seg>, right': seq<Seg>, d': int, g: Goal)
    requires EndsFrom(left, right, d, g) && left + right == left' + right' && Move(|left|, d) == Move(|left'|, d')
    ensures EndsFrom(left', right', d', g)
  {
    hide Ends, Clean;
  }

  lemma {:induction false} LoopOpens(left: seq<Seg>, kw: Seg, x: Seg, c: Cat)
    requires Open(left, DoLike) && kw.cat == DoLike && x.cat == Stmt && c in {Exp, Lbrace, IfLike, ForLike, DoLike}
    ensures Open(left + [kw], c) && Open(left + [kw, x], ForLike)
  {
    hide Pending;
    OpenMore(left, kw, c);
    OpenMore(left, kw, Stmt);
    OpenMore(left + [kw], x, ForLike);
    assert left + [kw] + [x] == left + [kw, x];
  }

  lemma {:induction false} ParseDoWhile(left: seq<Seg>, kw: Tok, s: Stm, whl: Tok, c: Cond, semi: Tok, rest: seq<Seg>, g: Goal)
    requires Proper(s) && Open(left, DoLike)
    requires GoodFrom(left, [Seg(Stmt, Layout(DoWhile(kw, s, whl, c, semi), g.f))] + rest, -1, g)
    ensures GoodFrom(left, [Seg(DoLike, kw)] + (Scraps(s) + ([Seg(ForLike, whl)] + (CondScraps(c) + ([Seg(Semi, semi)] + rest)))), 0, g)
    decreases s, 2
  {
    hide GoodFrom, EndsFrom, Open, Layout, Join, Scraps, CondScraps, Headed, View;
    var a, x, text := Seg(DoLike, kw), Seg(ForLike, whl), Layout(s, g.f);
    var end, more := [Seg(Semi, semi)] + rest, [x] + (CondScraps(c) + ([Seg(Semi, semi)] + rest));
    LoopLayout(kw, s, whl, c, semi, g.f);
    LoopFires(left, kw, text, Headed(whl, c), semi, rest, g);
    NotRbrace(s);
    LoopOpens(left, a, Seg(Stmt, text), First(s));
    ParseCond(left + [a, Seg(Stmt, text)], x, c, Seg(ElseLike, Headed(whl, c)), end, g);
    ParseBody(left, a, s, more, g);
  }

  lemma {:induction false} LoopLayout(kw: Tok, s: Stm, whl: Tok, c: Cond, semi: Tok, f: bool)
    ensures Layout(DoWhile(kw, s, whl, c, semi), f)
      == Join([kw, M(BreakSpace), M(Noop), M(Cancel), Layout(s, f), M(Cancel), M(Noop), M(BreakSpace), Headed(whl, c), semi])
  {
    hide Join, Headed;
  }

  lemma {:induction false} BodyPasses(left: seq<Seg>, a: Seg, x: Seg, more: seq<Seg>, g: Goal)
    requires a.cat == DoLike && x.cat == Stmt && more != [] && more[0].cat == ForLike
    requires GoodFrom(left + [a, x], more, 0, g)
    ensures GoodFrom(left + [a], [x] + more, -1, g)
  {
    hide GoodFrom, View;
    var mid := left + [a];
    assert mid + [x] == left + [a, x];
    ViewRun([x], more);
    Quiet(mid, x, more, g);
    ViewRun([a], [x] + more);
    Quiet(left, a, [x] + more, g);
    assert left + ([a] + ([x] + more)) == mid + ([x] + more);
    SamePlace(left, [a] + ([x] + more), 0, mid, [x] + more, -1, g);
  }

  /** The statement between `do` and `while`. */
  lemma {:induction false} ParseBody(left: seq<Seg>, a: Seg, s: Stm, more: seq<Seg>, g: Goal)
    requires Proper(s) && a.cat == DoLike && Open(left + [a], First(s)) && more != [] && more[0].cat == ForLike
    requires GoodFrom(left + [a, Seg(Stmt, Layout(s, g.f))], more, 0, g)
    ensures GoodFrom(left, [a] + (Scraps(s) + more), 0, g)
    decreases s, 1
  {
    hide GoodFrom, Open, Layout, Scraps, View;
    BodyPasses(left, a, Seg(Stmt, Layout(s, g.f)), more, g);
    Parse(left + [a], s, more, g);
    Form(s);
    NotRbrace(s);
    ViewRun([a], Scraps(s) + more);
    Quiet(left, a, Scraps(s) + more, g);
  }

  // ----- The whole list -----

  /** The scraps st starts from are those of v and an insert; what they show of the last two is a and b. */
  ghost predicate StartsWith(st: State, v: seq<Seg>, a: Tok, b: Tok)
    requires st.mem.Frozen()
  {
    v != [] && v[|v| - 1].seen == a + b && Segs(st.mem.Texts(), st.mem.Count(), st.scraps) == Unmerged(v, a, b)
  }

  lemma {:induction false} OneStays(x: Seg, g: Goal)
    requires x.cat == Stmt && g.p == x
    ensures GoodFrom([], [x] + [], -1, g)
  {
    hide Match, MatchCategory, Ends, Good;
    var v := [x];
    assert [] + ([x] + []) == v;
    EndsAtEnd(x, g.f);
    CleanSwitch(v, 0, g.f);
    StillIs(View(v, 0), g.f);
    GoodStep(v, 0, g.f, v, 1, x, g.b);
  }

  lemma {:induction false} AllGood(ss: Stms, g: Goal)
    requires ProperAll(ss) && g.p == Seg(Stmt, AllLayout(ss, g.f))
    ensures Good(AllScraps(ss), 0, g.f, g.p, g.b) && Clean(AllScraps(ss)) && AllScraps(ss) != []
  {
    hide Good, AllScraps, AllLayout;
    OneStays(g.p, g);
    ParseAll([], ss, [], g);
    assert [] + (AllScraps(ss) + []) == AllScraps(ss);
    AllForm(ss);
  }

  lemma {:induction false} GoodShows(st: State, v: seq<Seg>, a: Tok, g: Goal)
    requires Ready(st) && st.pos == 0 && Sealed(st, st.mem.Count()) && StartsWith(st, v, a, g.b) && Good(v, 0, g.f, g.p, g.b)
    ensures EndsIn(st, st.mem.Count(), g.f, g.p)
  {
    hide Segs, Sealed, Unmerged, EndsIn;
    assert Ends(Unmerged(v, a, g.b), 0, g.f, g.p);
    assert Shows(st, st.mem.Count(), Unmerged(v, a, g.b), 0);
  }

  /**
   The scraps of any list of statements, and the insert behind them, are reduced to one stmt; and
   the final text shows the list in its layout.
   */
  lemma {:induction false} StatementsLaidOut(tag: seq<Math>, st: State, ss: Stms, a: Tok, b: Tok, forceLines: bool)
    requires Fresh(tag, st) && ProperAll(ss) && StartsWith(st, AllScraps(ss), a, b)
    ensures var end := Reduced(st, forceLines);
      && end.mem.Frozen() && |end.scraps| == 1 && end.scraps[0].cat == Stmt
      && Seen(FinalText(end, st.mem.Count())) == AllLayout(ss, forceLines)
  {
    hide Good, AllScraps, AllLayout, Reduced, FinalText, Seen, Segs, StartsWith;
    var g := Goal(forceLines, Seg(Stmt, AllLayout(ss, forceLines)), b);
    FreshMoves(tag, st);
    AllGood(ss, g);
    GoodShows(st, AllScraps(ss), a, g);
    var end, base := Reduced(st, forceLines), st.mem.Count();
    FinalSpaced(end, base);
    OneSeg(end.mem.Texts(), base, end.scraps, g.p);
  }

  lemma {:induction false} OneSeg(texts: seq<seq<Token>>, base: nat, scraps: seq<Scrap>, p: Seg)
    requires Segs(texts, base, scraps) == [p]
    ensures |scraps| == 1 && scraps[0].cat == p.cat && Spaced(Segs(texts, base, scraps)) == p.seen
  {
    hide Seen, FlatText;
    assert Segs(texts, base, scraps)[0] == p;
  }

  /** A typed scrap shows the text it names. */
  lemma {:induction false} FreshSeg(tag: seq<Math>, st: State, i: nat)
    requires Fresh(tag, st) && i < |st.scraps|
    ensures SegOf(st.mem.Texts(), st.mem.Count(), st.scraps[i]) == Seg(st.scraps[i].cat, [Leaf(st.scraps[i].trans)])
  {
    hide Seen;
    assert FlatText(st.mem.Texts(), st.mem.Count(), st.scraps[i].trans) == [Leaf(st.scraps[i].trans)];
    SeenOne(Leaf(st.scraps[i].trans));
  }

  lemma {:induction false} BlockJoined(open: Tok, x: Tok, semi: Tok, close: Tok)
    ensures Join([M(Force), open, M(Indent), M(Force), Join([x, semi]), M(Force), M(Backup), close, M(Outdent), M(Force)])
         == (M(Force) + open + M(Indent)) + ((M(Force) + (x + semi) + M(Force)) + ((M(Backup) + close + M(Outdent)) + M(Force)))
  {
    hide Join, M;
    assert [x, semi] == [x] + [semi];
    JoinConcat([x], [semi]);
    JoinOne(x);
    JoinOne(semi);
    var body := Join([x, semi]);
    var p, q, r := [M(Force), open, M(Indent)], [M(Force), body, M(Force)], [M(Backup), close, M(Outdent)];
    assert [M(Force), open, M(Indent), M(Force), body, M(Force), M(Backup), close, M(Outdent), M(Force)]
        == p + (q + (r + [M(Force)]));
    JoinConcat(p, q + (r + [M(Force)]));
    JoinConcat(q, r + [M(Force)]);
    JoinConcat(r, [M(Force)]);
    JoinThree(M(Force), open, M(Indent));
    JoinThree(M(Force), body, M(Force));
    JoinThree(M(Backup), close, M(Outdent));
    JoinOne(M(Force));
  }

  /** What the five typed scraps show. */
  lemma {:induction false} BlockStarts(tag: seq<Math>, st: State, ss: Stms)
    requires Fresh(tag, st) && |st.scraps| == 5
    requires st.scraps[0].cat == Lbrace && st.scraps[1].cat == Exp && st.scraps[2].cat == Semi
    requires st.scraps[3].cat == Rbrace && st.scraps[4].cat == Insert
    requires var s := st.scraps; ss == One(Stm.Block([Leaf(s[0].trans)], One(Do(Var([Leaf(s[1].trans)]), [Leaf(s[2].trans)])),
                                              [Leaf(s[3].trans)] + [Leaf(s[4].trans)]))
    ensures StartsWith(st, AllScraps(ss), [Leaf(st.scraps[3].trans)], [Leaf(st.scraps[4].trans)])
  {
    hide SegOf;
    var s, texts, base := st.scraps, st.mem.Texts(), st.mem.Count();
    FreshSeg(tag, st, 0);
    FreshSeg(tag, st, 1);
    FreshSeg(tag, st, 2);
    FreshSeg(tag, st, 3);
    FreshSeg(tag, st, 4);
    var open, x, semi, a, b := [Leaf(s[0].trans)], [Leaf(s[1].trans)], [Leaf(s[2].trans)], [Leaf(s[3].trans)], [Leaf(s[4].trans)];
    BlockParts(open, x, semi, a + b, false);
  }

  lemma {:induction false} BlockParts(open: Tok, x: Tok, semi: Tok, close: Tok, f: bool)
    ensures var ss := One(Stm.Block(open, One(Do(Var(x), semi)), close));
      && ProperAll(ss) && AllScraps(ss) == [Seg(Lbrace, open), Seg(Exp, x), Seg(Semi, semi), Seg(Rbrace, close)]
      && AllLayout(ss, f) == Join([M(Force), open, M(Indent), M(Force), Join([x, semi]), M(Force), M(Backup), close, M(Outdent), M(Force)])
  {
    hide Join;
    var body := One(Do(Var(x), semi));
    assert AllScraps(body) == Scraps(Do(Var(x), semi)) == [Seg(Exp, x), Seg(Semi, semi)];
    assert ProperAll(body) && AllLayout(body, f) == Layout(Do(Var(x), semi), f);
    assert Proper(Stm.Block(open, body, close));
    assert AllScraps(One(Stm.Block(open, body, close))) == Scraps(Stm.Block(open, body, close));
    assert AllLayout(One(Stm.Block(open, body, close)), f) == Layout(Stm.Block(open, body, close), f);
  }

  /** `{ x; }`, with the insert that ends every C text. */
  lemma {:induction false} BlockOfOne(tag: seq<Math>, st: State, forceLines: bool)
    requires Fresh(tag, st) && |st.scraps| == 5
    requires st.scraps[0].cat == Lbrace && st.scraps[1].cat == Exp && st.scraps[2].cat == Semi
    requires st.scraps[3].cat == Rbrace && st.scraps[4].cat == Insert
    ensures var s, end := st.scraps, Reduced(st, forceLines);
      && end.mem.Frozen() && |end.scraps| == 1 && end.scraps[0].cat == Stmt
      && Seen(FinalText(end, st.mem.Count()))
         == [Mk(Force), Leaf(s[0].trans), Mk(Indent), Mk(Force), Leaf(s[1].trans), Leaf(s[2].trans), Mk(Force), Mk(Backup),
             Leaf(s[3].trans), Leaf(s[4].trans), Mk(Outdent), Mk(Force)]
  {
    hide Reduced, FinalText, Seen, Join, StartsWith, AllScraps, AllLayout, ProperAll;
    var s := st.scraps;
    var open, x, semi, a, b := [Leaf(s[0].trans)], [Leaf(s[1].trans)], [Leaf(s[2].trans)], [Leaf(s[3].trans)], [Leaf(s[4].trans)];
    var ss := One(Stm.Block(open, One(Do(Var(x), semi)), a + b));
    BlockStarts(tag, st, ss);
    BlockParts(open, x, semi, a + b, forceLines);
    StatementsLaidOut(tag, st, ss, a, b, forceLines);
    BlockJoined(open, x, semi, a + b);
  }
}
