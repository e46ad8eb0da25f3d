/**
 What is left when the reduction stops. No production applies to it, unless one was missed on the
 way; and when one is missed is said exactly.
 */
module ScrapStops {
  import opened ScrapGrammar
  import opened ScrapText
  import opened ScrapRewrite
  import opened ScrapInvariants
  import opened ScrapMissed

  function Cats(scraps: seq<Scrap>): (v: seq<Cat>)
    ensures |v| == |scraps|
  {
    seq(|scraps|, i requires 0 <= i < |scraps| => scraps[i].cat)
  }

  function CatAt(v: seq<Cat>, i: nat): Cat {
    if i < |v| then v[i] else Zero
  }

  function Look(v: seq<Cat>, i: nat): Window {
    Window(CatAt(v, i), CatAt(v, i + 1), CatAt(v, i + 2), CatAt(v, i + 3))
  }

  ghost predicate AllSimple(v: seq<Cat>) {
    forall i :: 0 <= i < |v| ==> Simple(v[i]) && v[i] != Zero
  }

  /** No production applies left of pp. */
  ghost predicate QuietBefore(v: seq<Cat>, pp: nat) {
    forall i :: 0 <= i < pp ==> On(Look(v, i)).Rests?
  }

  /** Production n at pp makes another apply left of where the reducer goes on. */
  predicate Misses(v: seq<Cat>, pp: nat, n: nat) {
    match n
    case 7 => pp >= 1 && CatAt(v, pp - 1) == Tag
    case 13 => pp >= 3 && CatAt(v, pp - 3) == TypedefLike && CatAt(v, pp - 2) == DeclHead && CatAt(v, pp - 1) == Exp
    case 44 | 46 => pp >= 1 && CatAt(v, pp - 1) == NewLike
    case 45 => pp >= 1 && CatAt(v, pp - 1) in {NewLike, TypedefLike}
    case 64 | 67 => pp >= 2 && CatAt(v, pp - 2) == DoLike && CatAt(v, pp - 1) == Stmt && CatAt(v, pp + 3) == Semi
    case 101 => pp >= 1 && CatAt(v, pp - 1) == Exp && CatAt(v, pp + 4) == IntLike && CatAt(v, pp + 5) in {Comma, Lbrace}
    case _ => false
  }

  /** Production e at pp makes v' of v. */
  ghost predicate Makes(v: seq<Cat>, pp: nat, e: Effect, v': seq<Cat>) {
    && e.Does? && 1 <= e.k && pp + e.at + e.k <= |v| && |v'| == |v| - e.k + 1
    && v'[..pp + e.at] == v[..pp + e.at] && v'[pp + e.at] == e.cat
    && forall i {:trigger v'[i]} :: pp + e.at < i < |v'| ==> Same(e, v[i + e.k - 1], v'[i])
  }

  lemma {:induction false} MakesCats(v: seq<Cat>, pp: nat, e: Effect, v': seq<Cat>, i: nat)
    requires Makes(v, pp, e, v')
    ensures i < pp + e.at ==> CatAt(v', i) == CatAt(v, i)
    ensures i == pp + e.at ==> CatAt(v', i) == e.cat
    ensures i > pp + e.at ==> Same(e, CatAt(v, i + e.k - 1), CatAt(v', i))
  {
    hide Same;
    if i < pp + e.at {
      assert v'[..pp + e.at][i] == v[..pp + e.at][i];
    }
    if i >= |v'| { assert Same(e, Zero, Zero) by { SameItself(e); } }
  }

  lemma SameItself(e: Effect)
    requires e.Does?
    ensures Same(e, Zero, Zero)
  {
  }

  lemma {:induction false} FollowsLook(v: seq<Cat>, pp: nat, e: Effect, v': seq<Cat>)
    requires Makes(v, pp, e, v') && e == On(Look(v, pp))
    ensures Follows(e, Look(v, pp), Look(v', pp))
  {
    hide On, Same, CatAt;
    Regularly(Look(v, pp));
    MakesCats(v, pp, e, v', pp);
    MakesCats(v, pp, e, v', pp + 1);
    MakesCats(v, pp, e, v', pp + 2);
    MakesCats(v, pp, e, v', pp + 3);
    if e.k == 1 {
      SameIs(e, CatAt(v, pp + 1), CatAt(v', pp + 1));
      SameIs(e, CatAt(v, pp + 2), CatAt(v', pp + 2));
      SameIs(e, CatAt(v, pp + 3), CatAt(v', pp + 3));
    }
  }

  lemma SameIs(e: Effect, c: Cat, c': Cat)
    requires e.Does? && e.n !in {42, 45, 46}
    ensures Same(e, c, c') ==> c' == c
  {
  }

  // ----- One production -----

  /** Before and after production e at pp, with nothing missed so far. */
  ghost predicate Fired(v: seq<Cat>, pp: nat, e: Effect, v': seq<Cat>) {
    QuietBefore(v, pp) && e == On(Look(v, pp)) && Makes(v, pp, e, v')
  }

  lemma {:induction false} QuietPair(w: Window)
    requires On(w).Rests?
    ensures w.c0 != RawInt && !(w.c0 == Exp && w.c1 == Exp)
  {
  }

  lemma {:induction false} LeftOne(v: seq<Cat>, pp: nat, e: Effect, v': seq<Cat>)
    requires Fired(v, pp, e, v') && pp >= 1 && e.d > -1
    ensures On(Look(v', pp - 1)).Rests? <==> !Missed1(CatAt(v, pp - 1), e, Look(v', pp))
  {
    hide On, Makes, Follows, CatAt, Change0, Change1, Change2, Missed1;
    FiredDoes(v, pp, e, v');
    FollowsLook(v, pp, e, v');
    Changes(Look(v, pp), Look(v', pp));
    MakesCats(v, pp, e, v', pp - 1);
    SecondRests(Look(v, pp - 1), Look(v', pp - 1), e, Look(v, pp), Look(v', pp));
  }

  lemma {:induction false} LeftTwo(v: seq<Cat>, pp: nat, e: Effect, v': seq<Cat>)
    requires Fired(v, pp, e, v') && pp >= 2 && e.d > -2
    ensures On(Look(v', pp - 2)).Rests? <==> !Missed2(CatAt(v, pp - 2), CatAt(v, pp - 1), Look(v', pp))
  {
    hide On, Makes, Follows, CatAt, Change0, Change1, Change2, Missed2;
    FiredDoes(v, pp, e, v');
    FollowsLook(v, pp, e, v');
    Changes(Look(v, pp), Look(v', pp));
    MakesCats(v, pp, e, v', pp - 1);
    MakesCats(v, pp, e, v', pp - 2);
    QuietPair(Look(v, pp - 1));
    ThirdRests(Look(v, pp - 2), Look(v', pp - 2), Look(v, pp), Look(v', pp));
  }

  lemma {:induction false} LeftThree(v: seq<Cat>, pp: nat, e: Effect, v': seq<Cat>)
    requires Fired(v, pp, e, v') && pp >= 3 && e.d > -3
    ensures On(Look(v', pp - 3)).Rests? <==> !Missed3(CatAt(v, pp - 3), CatAt(v, pp - 2), CatAt(v, pp - 1), Look(v', pp))
  {
    hide On, Makes, Follows, CatAt, Change0, Change1, Change2, Missed3;
    FiredDoes(v, pp, e, v');
    FollowsLook(v, pp, e, v');
    Changes(Look(v, pp), Look(v', pp));
    MakesCats(v, pp, e, v', pp - 1);
    MakesCats(v, pp, e, v', pp - 2);
    MakesCats(v, pp, e, v', pp - 3);
    QuietPair(Look(v, pp - 1));
    FourthRests(Look(v, pp - 3), Look(v', pp - 3), Look(v, pp), Look(v', pp));
  }

  /** Farther to the left nothing is seen of the production. */
  lemma {:induction false} LeftFar(v: seq<Cat>, pp: nat, e: Effect, v': seq<Cat>, i: nat)
    requires Fired(v, pp, e, v') && i + 3 < pp
    ensures On(Look(v', i)).Rests?
  {
    hide On, CatAt;
    MakesCats(v, pp, e, v', i);
    MakesCats(v, pp, e, v', i + 1);
    MakesCats(v, pp, e, v', i + 2);
    MakesCats(v, pp, e, v', i + 3);
    assert Look(v', i) == Look(v, i);
  }

  /** The two productions that go on one scrap farther. */
  lemma {:induction false} GoesOn(e: Effect, w: Window, y: Window)
    requires w.c0 == IntLike && e == OnIntLike(w) && Follows(e, w, y) && e.d == 1
    ensures (y.c0 == IntLike && y.c1 == Langle) || (y.c0 == FnDecl && y.c1 == Lbrace)
  {
  }

  lemma {:induction false} RestsThere(y: Window)
    requires (y.c0 == IntLike && y.c1 == Langle) || (y.c0 == FnDecl && y.c1 == Lbrace)
    ensures On(y).Rests?
  {
  }

  lemma {:induction false} OnType(w: Window)
    requires w.c0 == IntLike
    ensures On(w) == OnIntLike(w)
  {
    hide OnIntLike;
  }

  lemma {:induction false} MissedIs(v: seq<Cat>, pp: nat, e: Effect, v': seq<Cat>)
    requires Fired(v, pp, e, v')
    ensures e.Does?
    ensures var y := Look(v', pp);
      Misses(v, pp, e.n) <==>
        || (pp >= 1 && e.d > -1 && Missed1(CatAt(v, pp - 1), e, y))
        || (pp >= 2 && e.d > -2 && Missed2(CatAt(v, pp - 2), CatAt(v, pp - 1), y))
        || (pp >= 3 && e.d > -3 && Missed3(CatAt(v, pp - 3), CatAt(v, pp - 2), CatAt(v, pp - 1), y))
  {
    hide On, Makes, CatAt, Missed1, Missed2, Missed3;
    FiredDoes(v, pp, e, v');
    MissedOne(v, pp, e, v');
    MissedTwo(v, pp, e, v');
    MissedThree(v, pp, e, v');
  }

  lemma {:induction false} FiredDoes(v: seq<Cat>, pp: nat, e: Effect, v': seq<Cat>)
    requires Fired(v, pp, e, v')
    ensures e.Does? && On(Look(v, pp)) == e
  {
  }

  lemma {:induction false} MissedOne(v: seq<Cat>, pp: nat, e: Effect, v': seq<Cat>)
    requires Fired(v, pp, e, v') && e.Does?
    ensures pp >= 1 && e.d > -1 && Missed1(CatAt(v, pp - 1), e, Look(v', pp)) <==> Misses(v, pp, e.n) && e.n !in {13, 64, 67}
  {
    hide On, Makes, CatAt;
    Regularly(Look(v, pp));
    MakesCats(v, pp, e, v', pp + 1);
    MakesCats(v, pp, e, v', pp + 2);
  }

  lemma {:induction false} MissedTwo(v: seq<Cat>, pp: nat, e: Effect, v': seq<Cat>)
    requires Fired(v, pp, e, v') && e.Does?
    ensures pp >= 2 && e.d > -2 && Missed2(CatAt(v, pp - 2), CatAt(v, pp - 1), Look(v', pp))
      <==> Misses(v, pp, e.n) && e.n in {64, 67}
  {
    hide On, Makes, CatAt;
    Regularly(Look(v, pp));
    MakesCats(v, pp, e, v', pp);
    MakesCats(v, pp, e, v', pp + 1);
  }

  lemma {:induction false} MissedThree(v: seq<Cat>, pp: nat, e: Effect, v': seq<Cat>)
    requires Fired(v, pp, e, v') && e.Does?
    ensures pp >= 3 && e.d > -3 && Missed3(CatAt(v, pp - 3), CatAt(v, pp - 2), CatAt(v, pp - 1), Look(v', pp))
      <==> Misses(v, pp, e.n) && e.n == 13
  {
    hide On, Makes, CatAt;
    Regularly(Look(v, pp));
    MakesCats(v, pp, e, v', pp);
    if pp >= 3 { NoLangle(Look(v, pp - 3)); }
  }

  lemma {:induction false} NoLangle(w: Window)
    requires On(w).Rests?
    ensures !(w.c0 == TypedefLike && w.c1 == DeclHead && w.c2 == Exp && w.c3 == Langle)
  {
  }

  /** Nothing applies left of where the reducer goes on, if and only if nothing was missed. */
  lemma {:induction false} FiredQuiet(v: seq<Cat>, pp: nat, e: Effect, v': seq<Cat>)
    requires Fired(v, pp, e, v')
    ensures e.Does? && (QuietBefore(v', Move(pp, e.d)) <==> !Misses(v, pp, e.n))
  {
    hide On, OnIntLike, Makes, Misses, CatAt, Look, Missed1, Missed2, Missed3;
    MissedIs(v, pp, e, v');
    var pp' := Move(pp, e.d);
    Regularly(Look(v, pp));
    if pp >= 1 && e.d > -1 { LeftOne(v, pp, e, v'); }
    if pp >= 2 && e.d > -2 { LeftTwo(v, pp, e, v'); }
    if pp >= 3 && e.d > -3 { LeftThree(v, pp, e, v'); }
    forall i | 0 <= i < pp' && i + 3 < pp ensures On(Look(v', i)).Rests? { LeftFar(v, pp, e, v', i); }
    if e.d == 1 {
      FollowsLook(v, pp, e, v');
      OnType(Look(v, pp));
      GoesOn(e, Look(v, pp), Look(v', pp));
      RestsThere(Look(v', pp));
    }
    if !Misses(v, pp, e.n) {
      forall i | 0 <= i < pp' ensures On(Look(v', i)).Rests? {
        if i + 3 < pp { LeftFar(v, pp, e, v', i); } else { assert i == pp || i == pp - 1 || i == pp - 2 || i == pp - 3; }
      }
    }
  }

  // ----- One turn of the loop -----

  /** The categories, without the inserts. */
  function Bare(c: seq<Cat>): seq<Cat> {
    if c == [] then [] else (if c[0] == Insert then [] else [c[0]]) + Bare(c[1..])
  }

  /** No insert is among the first n. */
  ghost predicate Clear(c: seq<Cat>, n: nat) {
    forall i :: 0 <= i < n && i < |c| ==> c[i] != Insert
  }

  /** Once the reducer has gone on, the inserts it has met are gone; one alone stays. */
  ghost predicate Passed(c: seq<Cat>, pos: nat) {
    pos > 0 ==> if Bare(c) == [] then |c| <= 1 else Clear(c, pos + 1)
  }

  ghost predicate Pure(st: State) {
    Ready(st) && AllSimple(Bare(Cats(st.scraps))) && Passed(Cats(st.scraps), st.pos)
  }

  /** Nothing has been missed so far. */
  ghost predicate Going(st: State) {
    Pure(st) && QuietBefore(Bare(Cats(st.scraps)), st.pos)
  }

  /** The number of the production that the table chooses. */
  ghost function Chosen(st: State, f: bool): nat
    requires Ready(st) && st.pos < |st.scraps|
  {
    WindowPadded(st);
    var a := Match(WindowAt(st.scraps, st.pos), f);
    if a.NoMatch? then 0 else a.n
  }

  /** The production that is applied next makes one apply that is not looked for. */
  ghost predicate StepMisses(st: State, f: bool)
    requires Ready(st) && st.pos < |st.scraps|
  {
    Misses(Bare(Cats(st.scraps)), st.pos, Chosen(st, f))
  }

  lemma {:induction false} LookIs(scraps: seq<Scrap>, i: nat)
    ensures WindowAt(scraps, i) == Look(Cats(scraps), i)
  {
  }

  lemma {:induction false} BareConcat(a: seq<Cat>, b: seq<Cat>)
    ensures Bare(a + b) == Bare(a) + Bare(b)
  {
    if a == [] {
      assert a + b == b;
    } else {
      BareConcat(a[1..], b);
      assert (a + b)[1..] == a[1..] + b && (a + b)[0] == a[0];
      ThreeCats(if a[0] == Insert then [] else [a[0]], Bare(a[1..]), Bare(b));
    }
  }

  lemma ThreeCats(a: seq<Cat>, b: seq<Cat>, c: seq<Cat>)
    ensures a + b + c == a + (b + c)
  {
  }

  lemma {:induction false} BareClear(c: seq<Cat>)
    requires Clear(c, |c|)
    ensures Bare(c) == c
  {
    if c != [] {
      assert forall i :: 0 <= i < |c[1..]| ==> c[1..][i] == c[i + 1];
      BareClear(c[1..]);
    }
  }

  function Least(m: nat, n: nat): nat {
    if m < n then m else n
  }

  /** Up to where there are no inserts, nothing changes. */
  lemma {:induction false} BareFront(c: seq<Cat>, n: nat)
    requires Clear(c, n)
    ensures var m := Least(n, |c|); Bare(c) == c[..m] + Bare(c[m..])
  {
    var m := Least(n, |c|);
    assert c[..m] + c[m..] == c;
    BareConcat(c[..m], c[m..]);
    BareClear(c[..m]);
  }

  lemma {:induction false} LookBare(c: seq<Cat>, i: nat)
    requires Clear(c, i + 4)
    ensures Look(c, i) == Look(Bare(c), i)
  {
    BareFront(c, i + 4);
    if |c| <= i + 4 { assert c[|c|..] == [] && c[..|c|] == c; }
  }

  lemma {:induction false} SimpleLook(v: seq<Cat>, i: nat)
    requires AllSimple(v)
    ensures Simple(CatAt(v, i)) && Simple(CatAt(v, i + 1)) && Simple(CatAt(v, i + 2)) && Simple(CatAt(v, i + 3))
    ensures i < |v| ==> CatAt(v, i) != Zero
  {
  }

  /** Away from inserts the switch on the category decides. */
  lemma {:induction false} SimpleMatch(w: Window, f: bool)
    requires Padded(w) && Simple(w.c0) && Simple(w.c1) && Simple(w.c2) && Simple(w.c3)
    ensures EffectOf(Match(w, f)) == On(w) && Reserves(Match(w, f))
  {
    hide On, Sound, MatchCategory;
    DoesCategory(w, f);
  }

  lemma SoundCat(st: State, a: Action)
    requires Ready(st) && st.pos < |st.scraps| && Sound(a, WindowAt(st.scraps, st.pos)) && !a.NoMatch?
    ensures a.cat != Zero && (a.Rewrite? && a.reserve >= 0 ==> a.at <= a.reserve)
  {
    hide Nested, Covers, Rank, IsBracket;
  }

  lemma ReserveFront(st: State, reserve: int, j: nat)
    requires Ready(st) && j <= |st.scraps| && (reserve >= 0 ==> j <= st.pos + reserve < |st.scraps|)
    ensures |Reserve(st, reserve).1| == |st.scraps| && Reserve(st, reserve).1[..j] == st.scraps[..j]
  {
    hide MakeReserved, Similar, Retagged;
    ReserveKeeps(st, reserve);
    if reserve >= 0 {
      var scraps := Reserve(st, reserve).1;
      MakeReservedSame(st.mem, st.scraps, st.pos + reserve);
      assert scraps[..st.pos + reserve][..j] == scraps[..j];
      assert st.scraps[..st.pos + reserve][..j] == st.scraps[..j];
    }
  }

  /** The scraps before the run are not touched, by `make_reserved` either. */
  lemma RewriteKeeps(st: State, a: Action)
    requires Ready(st) && st.pos < |st.scraps| && Sound(a, WindowAt(st.scraps, st.pos)) && a.Rewrite?
    ensures st.pos + a.at <= |st.scraps| && st.pos + a.at <= |Apply(st, a).scraps|
    ensures Apply(st, a).scraps[..st.pos + a.at] == st.scraps[..st.pos + a.at]
  {
    hide Sound, Reserve, AppendFrom, InRange, Recategorised, Retagged, Ready;
    ActionFits(st, a);
    ReserveKeeps(st, a.reserve);
    SoundCat(st, a);
    ReserveFront(st, a.reserve, st.pos + a.at);
  }

  lemma {:induction false} CatsAgree(scraps: seq<Scrap>, scraps': seq<Scrap>, j: nat)
    requires j <= |scraps| && j <= |scraps'| && scraps'[..j] == scraps[..j]
    ensures Cats(scraps')[..j] == Cats(scraps)[..j]
  {
    forall i | 0 <= i < j ensures Cats(scraps')[i] == Cats(scraps)[i] {
      assert scraps'[..j][i] == scraps[..j][i];
    }
  }

  lemma RewriteMakes(st: State, a: Action)
    requires Ready(st) && st.pos < |st.scraps| && Sound(a, WindowAt(st.scraps, st.pos)) && a.Rewrite? && Reserves(a)
    ensures Makes(Cats(st.scraps), st.pos, EffectOf(a), Cats(Apply(st, a).scraps))
  {
    hide Sound, Built, Apply, Replace, Ready, Similar, Same, Reserves;
    AppliedScraps(st, a);
    RewriteKeeps(st, a);
    var c, c', e, j := Cats(st.scraps), Cats(Apply(st, a).scraps), EffectOf(a), st.pos + a.at;
    CatsAgree(st.scraps, Apply(st, a).scraps, j);
    forall i | j < i < |c'| ensures Same(e, c[i + a.k - 1], c'[i]) {
      BehindSame(st, a, i);
    }
  }

  lemma BehindSame(st: State, a: Action, i: nat)
    requires Ready(st) && st.pos < |st.scraps| && Sound(a, WindowAt(st.scraps, st.pos)) && a.Rewrite? && Reserves(a)
    requires st.pos + a.at < i < |Apply(st, a).scraps|
    ensures 1 <= a.k && i + a.k - 1 < |st.scraps|
    ensures Same(EffectOf(a), st.scraps[i + a.k - 1].cat, Apply(st, a).scraps[i].cat)
  {
    hide Sound, Built, Apply, Replace, Ready;
    AppliedScraps(st, a);
    assert Similar(st.scraps[i + a.k - 1], Apply(st, a).scraps[i]);
    if a.reserve < 0 {
      ReplacedAt(st.scraps, st.pos + a.at, a.k, Apply(st, a).scraps[st.pos + a.at], i);
    }
  }

  lemma ReplacedAt(scraps: seq<Scrap>, j: nat, k: nat, s: Scrap, i: nat)
    requires 1 <= k && j + k <= |scraps| && j < i < |scraps| - k + 1
    ensures |Replace(scraps, j, k, s)| == |scraps| - k + 1 && Replace(scraps, j, k, s)[i] == scraps[i + k - 1]
  {
  }

  lemma RelabelMakes(st: State, a: Action)
    requires Ready(st) && st.pos < |st.scraps| && Sound(a, WindowAt(st.scraps, st.pos)) && a.Relabel?
    ensures Makes(Cats(st.scraps), st.pos, EffectOf(a), Cats(Apply(st, a).scraps))
  {
    hide Sound;
    ActionFits(st, a);
    CatsAgree(st.scraps, Apply(st, a).scraps, st.pos + a.at);
  }

  /** What a production does to the categories. */
  lemma {:induction false} ApplyMakes(st: State, a: Action)
    requires Ready(st) && st.pos < |st.scraps| && Sound(a, WindowAt(st.scraps, st.pos)) && !a.NoMatch?
    requires Reserves(a)
    ensures Makes(Cats(st.scraps), st.pos, EffectOf(a), Cats(Apply(st, a).scraps)) && a.cat != Zero
    ensures Ready(Apply(st, a)) && Apply(st, a).pos == Move(st.pos, a.d)
  {
    hide Sound, Built, Similar, Makes, Smaller;
    ActionFits(st, a);
    ApplyProgress(st, a);
    SoundCat(st, a);
    if a.Rewrite? { RewriteMakes(st, a); } else { RelabelMakes(st, a); }
  }

  // ----- The turns -----

  /** Behind the production. */
  ghost predicate SameAll(e: Effect, r: seq<Cat>, r': seq<Cat>)
    requires e.Does?
  {
    |r'| == |r| && forall i :: 0 <= i < |r| ==> Same(e, r[i], r'[i])
  }

  lemma {:induction false} BareSame(e: Effect, r: seq<Cat>, r': seq<Cat>)
    requires e.Does? && SameAll(e, r, r')
    ensures SameAll(e, Bare(r), Bare(r'))
  {
    hide Same;
    if r != [] {
      assert Same(e, r[0], r'[0]);
      SameSimple(e, r[0], r'[0]);
      assert forall i :: 0 <= i < |r[1..]| ==> r[1..][i] == r[i + 1] && r'[1..][i] == r'[i + 1];
      BareSame(e, r[1..], r'[1..]);
    }
  }

  /** A production within the first n scraps, of which none is an insert. */
  lemma {:induction false} MakesClear(c: seq<Cat>, pp: nat, e: Effect, c': seq<Cat>, n: nat)
    requires Makes(c, pp, e, c') && e.cat != Insert && Clear(c, n) && pp + e.at + e.k <= n
    ensures Clear(c', n - e.k + 1)
  {
    hide Same;
    forall i | 0 <= i < n - e.k + 1 && i < |c'| ensures c'[i] != Insert {
      if i < pp + e.at {
        assert c'[..pp + e.at][i] == c[..pp + e.at][i];
      } else if i > pp + e.at {
        assert Same(e, c[i + e.k - 1], c'[i]);
        SameSimple(e, c[i + e.k - 1], c'[i]);
      }
    }
  }

  lemma {:induction false} MakesBehind(c: seq<Cat>, pp: nat, e: Effect, c': seq<Cat>, m: nat)
    requires Makes(c, pp, e, c') && pp + e.at + e.k <= m <= |c|
    ensures SameAll(e, c[m..], c'[m - e.k + 1..])
  {
    hide Same;
    var r, r' := c[m..], c'[m - e.k + 1..];
    forall i | 0 <= i < |r| ensures Same(e, r[i], r'[i]) {
      assert Same(e, c[m - e.k + 1 + i + e.k - 1], c'[m - e.k + 1 + i]);
    }
  }

  lemma {:induction false} MakesJoin(c: seq<Cat>, pp: nat, e: Effect, c': seq<Cat>, m: nat, r: seq<Cat>, r': seq<Cat>)
    requires Makes(c, pp, e, c') && pp + e.at + e.k <= m <= |c| && SameAll(e, r, r')
    ensures Makes(c[..m] + r, pp, e, c'[..m - e.k + 1] + r')
  {
    hide Same;
    var v, v', m' := c[..m] + r, c'[..m - e.k + 1] + r', m - e.k + 1;
    assert v'[..pp + e.at] == c'[..pp + e.at] && v[..pp + e.at] == c[..pp + e.at];
    forall i | pp + e.at < i < |v'| ensures Same(e, v[i + e.k - 1], v'[i]) {
      if i < m' {
        assert Same(e, c[i + e.k - 1], c'[i]);
      } else {
        assert v'[i] == r'[i - m'] && v[i + e.k - 1] == r[i - m'];
      }
    }
  }

  /** A production that sees no insert does the same to the list without inserts. */
  lemma {:induction false} MakesBare(c: seq<Cat>, pp: nat, e: Effect, c': seq<Cat>)
    requires Makes(c, pp, e, c') && e.cat != Insert && e.at + e.k <= 4 && Clear(c, pp + 4)
    ensures Makes(Bare(c), pp, e, Bare(c')) && Clear(c', pp + 5 - e.k)
  {
    hide Same, Makes, SameAll;
    MakesLength(c, pp, e, c');
    var n := pp + 4;
    var m := Least(n, |c|);
    MakesClear(c, pp, e, c', n);
    BareFront(c, n);
    BareFront(c', n - e.k + 1);
    assert Least(n - e.k + 1, |c'|) == m - e.k + 1;
    MakesBehind(c, pp, e, c', m);
    BareSame(e, c[m..], c'[m - e.k + 1..]);
    MakesJoin(c, pp, e, c', m, Bare(c[m..]), Bare(c'[m - e.k + 1..]));
  }

  lemma {:induction false} MakesSimple(v: seq<Cat>, pp: nat, e: Effect, v': seq<Cat>)
    requires Makes(v, pp, e, v') && AllSimple(v) && Simple(e.cat) && e.cat != Zero
    ensures AllSimple(v')
  {
    hide Same, Simple;
    forall i | 0 <= i < |v'| ensures Simple(v'[i]) && v'[i] != Zero {
      if i < pp + e.at {
        assert v'[..pp + e.at][i] == v[..pp + e.at][i];
      } else if i > pp + e.at {
        assert Same(e, v[i + e.k - 1], v'[i]);
        SameSimple(e, v[i + e.k - 1], v'[i]);
      }
    }
  }

  lemma {:induction false} SameSimple(e: Effect, c: Cat, c': Cat)
    requires e.Does? && Same(e, c, c')
    ensures Simple(c) <==> Simple(c')
    ensures (c == Zero <==> c' == Zero) && (c == Insert <==> c' == Insert)
  {
  }

  lemma SimpleInsert(c: Cat)
    requires Simple(c)
    ensures c != Insert
  {
  }

  lemma {:induction false} MakesLength(v: seq<Cat>, pp: nat, e: Effect, v': seq<Cat>)
    requires Makes(v, pp, e, v')
    ensures e.Does? && 1 <= e.k && pp + e.at + e.k <= |v| && |v'| == |v| - e.k + 1
  {
  }

  lemma {:induction false} SimpleAt(v: seq<Cat>, i: nat)
    requires AllSimple(v)
    ensures var w := Look(v, i); Simple(w.c0) && Simple(w.c1) && Simple(w.c2) && Simple(w.c3)
  {
    SimpleLook(v, i);
  }

  /** The reducer sees no insert from where it is. */
  ghost predicate SeesNone(st: State) {
    Clear(Cats(st.scraps), st.pos + 4)
  }

  /** What a production does to the categories without the inserts. */
  lemma {:induction false} FireForm(st: State, f: bool)
    requires Pure(st) && st.pos < |st.scraps| && Padded(WindowAt(st.scraps, st.pos)) && SeesNone(st)
    requires !Match(WindowAt(st.scraps, st.pos), f).NoMatch?
    ensures var v, e := Bare(Cats(st.scraps)), EffectOf(Match(WindowAt(st.scraps, st.pos), f));
      && Makes(v, st.pos, e, Bare(Cats(Step(st, f).scraps))) && e == On(Look(v, st.pos)) && e.Does?
      && Makes(Cats(st.scraps), st.pos, e, Cats(Step(st, f).scraps))
      && e.n == Chosen(st, f) && Step(st, f).pos == Move(st.pos, e.d)
    ensures Pure(Step(st, f))
  {
    hide Match, Sound, On, Makes, Apply, Ready, Look, Cats, Same, AllSimple, Bare, Clear;
    var c, w := Cats(st.scraps), WindowAt(st.scraps, st.pos);
    var a, v := Match(w, f), Bare(c);
    LookIs(st.scraps, st.pos);
    LookBare(c, st.pos);
    SimpleAt(v, st.pos);
    SimpleMatch(w, f);
    ApplyMakes(st, a);
    var e, c' := EffectOf(a), Cats(Apply(st, a).scraps);
    Regularly(w);
    SimpleInsert(a.cat);
    MakesBare(c, st.pos, e, c');
    MakesSimple(v, st.pos, e, Bare(c'));
    MakesLength(v, st.pos, e, Bare(c'));
    ClearLess(c', st.pos + 5 - e.k, Move(st.pos, e.d) + 1);
  }

  lemma {:induction false} ClearLess(c: seq<Cat>, n: nat, n': nat)
    requires Clear(c, n) && n' <= n
    ensures Clear(c, n')
  {
  }

  lemma {:induction false} FireExact(st: State, f: bool)
    requires Going(st) && st.pos < |st.scraps| && Padded(WindowAt(st.scraps, st.pos)) && SeesNone(st)
    requires !Match(WindowAt(st.scraps, st.pos), f).NoMatch?
    ensures Ready(Step(st, f)) && (Going(Step(st, f)) <==> !StepMisses(st, f))
  {
    hide Match, Sound, On, Makes, QuietBefore, Misses, Step, Ready, Look, Cats, AllSimple, Bare, Chosen, EffectOf, Passed, SeesNone;
    FireForm(st, f);
    FiredQuiet(Bare(Cats(st.scraps)), st.pos, EffectOf(Match(WindowAt(st.scraps, st.pos), f)), Bare(Cats(Step(st, f).scraps)));
  }

  /** No production applies. */
  lemma {:induction false} WaitExact(st: State, f: bool)
    requires Going(st) && st.pos < |st.scraps| && Padded(WindowAt(st.scraps, st.pos)) && SeesNone(st)
    requires Match(WindowAt(st.scraps, st.pos), f).NoMatch?
    ensures Ready(Step(st, f)) && Going(Step(st, f)) && !StepMisses(st, f)
  {
    hide Match, Sound, On, Look, Cats, AllSimple, Bare, Clear;
    var c := Cats(st.scraps);
    LookIs(st.scraps, st.pos);
    LookBare(c, st.pos);
    SimpleAt(Bare(c), st.pos);
    SimpleMatch(WindowAt(st.scraps, st.pos), f);
    ClearSome(c, st.pos);
    SomeClear(c, st.pos);
    ClearLess(c, st.pos + 4, st.pos + 2);
  }

  lemma {:induction false} SomeBare(c: seq<Cat>, i: nat)
    requires i < |c| && c[i] != Insert
    ensures Bare(c) != []
  {
    if i > 0 { SomeBare(c[1..], i - 1); }
  }

  lemma {:induction false} SomeClear(c: seq<Cat>, i: nat)
    requires i < |c| && Clear(c, i + 1)
    ensures Bare(c) != [] && c[i] != Insert
  {
    SomeBare(c, i);
  }

  // ----- Inserts -----

  predicate SimpleOrInsert(c: Cat) {
    Simple(c) || c == Insert
  }

  /** An insert goes into the scrap before it, or at the beginning into the one behind it. */
  lemma {:induction false} Taken(w: Window, f: bool)
    requires Padded(w) && SimpleOrInsert(w.c0) && SimpleOrInsert(w.c1) && SimpleOrInsert(w.c2) && SimpleOrInsert(w.c3)
    requires w.c1 == Insert || w.c2 == Insert || w.c3 == Insert || (w.c0 == Insert && w.c1 != Zero)
    ensures var a := Match(w, f);
      && a.Rewrite? && a.n in {0, 83} && a.k == 2 && a.at <= 2 && a.reserve == -1 && a.d <= 0 && w.At(a.at + 1) != Zero
      && ((w.At(a.at + 1) == Insert && a.cat == w.At(a.at)) || (a.at == 0 && a.d == 0 && w.c0 == Insert && a.cat == w.c1))
      && (a.at == 2 || a.d < 0 || w.c0 == Insert)
  {
    hide Sound, MatchCategory;
    if w.c1 != Insert && w.c2 != Insert && w.c3 != Insert { TakenFirst(w, f); }
  }

  lemma {:induction false} TakenFirst(w: Window, f: bool)
    requires Padded(w) && w.c0 == Insert && w.c1 != Zero
    ensures MatchCategory(w, f) == Rewrite(83, 0, 2, w.c1, 0, Pair(0), -1)
  {
    hide Sound, Covers, Steady, Pair;
  }

  lemma {:induction false} CatsMixed(c: seq<Cat>, i: nat)
    requires AllSimple(Bare(c)) && i < |c|
    ensures SimpleOrInsert(c[i]) && c[i] != Zero
  {
    if i > 0 {
      assert c == c[..1] + c[1..];
      BareConcat(c[..1], c[1..]);
      TailSimple(Bare(c[..1]), Bare(c[1..]));
      CatsMixed(c[1..], i - 1);
    } else if c[0] != Insert {
      assert Bare(c)[0] == c[0];
    }
  }

  lemma TailSimple(a: seq<Cat>, b: seq<Cat>)
    requires AllSimple(a + b)
    ensures AllSimple(b)
  {
    forall i | 0 <= i < |b| ensures Simple(b[i]) && b[i] != Zero {
      assert (a + b)[|a| + i] == b[i];
    }
  }

  lemma {:induction false} MixedLook(c: seq<Cat>, i: nat)
    requires AllSimple(Bare(c))
    ensures var w := Look(c, i); SimpleOrInsert(w.c0) && SimpleOrInsert(w.c1) && SimpleOrInsert(w.c2) && SimpleOrInsert(w.c3)
  {
    hide AllSimple, Bare;
    if i < |c| { CatsMixed(c, i); }
    if i + 1 < |c| { CatsMixed(c, i + 1); }
    if i + 2 < |c| { CatsMixed(c, i + 2); }
    if i + 3 < |c| { CatsMixed(c, i + 3); }
  }

  lemma {:induction false} BareTaken(a: seq<Cat>, x: Cat, y: Cat, z: Cat, b: seq<Cat>)
    requires (y == Insert && z == x) || (x == Insert && z == y)
    ensures Bare(a + ([x, y] + b)) == Bare(a + ([z] + b))
  {
    hide Bare;
    BareConcat(a, [x, y] + b);
    BareConcat(a, [z] + b);
    BareConcat([x, y], b);
    BareConcat([z], b);
    BarePair(x, y);
    BarePair(y, x);
    BarePair(z, Insert);
  }

  lemma {:induction false} CutTwo(c: seq<Cat>, j: nat)
    requires j + 2 <= |c|
    ensures c == c[..j] + ([c[j], c[j + 1]] + c[j + 2..])
  {
  }

  /** One insert is gone, and nothing else. */
  lemma {:induction false} InsertGone(c: seq<Cat>, pos: nat, e: Effect, c': seq<Cat>)
    requires Makes(c, pos, e, c') && e.k == 2 && e.n in {0, 83}
    requires (c[pos + e.at + 1] == Insert && e.cat == c[pos + e.at]) || (c[pos + e.at] == Insert && e.cat == c[pos + e.at + 1])
    ensures Bare(c') == Bare(c) && c' == c[..pos + e.at] + [e.cat] + c[pos + e.at + 2..]
  {
    hide Same, Makes, Bare;
    MakesLength(c, pos, e, c');
    var j := pos + e.at;
    var a, b := c[..j], c[j + 2..];
    SameCats(c, pos, e, c', a + [e.cat] + b);
    CutTwo(c, j);
    ThreeCats(a, [e.cat], b);
    BareTaken(a, c[j], c[j + 1], e.cat, b);
  }

  lemma BarePair(x: Cat, y: Cat)
    ensures Bare([x]) == if x == Insert then [] else [x]
    ensures Bare([x, y]) == Bare([x]) + Bare([y])
  {
    assert [x][1..] == [] && [x, y][1..] == [y];
    BareConcat([x], [y]);
    assert [x] + [y] == [x, y];
  }

  lemma {:induction false} SameCats(v: seq<Cat>, pos: nat, e: Effect, x: seq<Cat>, v': seq<Cat>)
    requires Makes(v, pos, e, x) && e.n !in {42, 45, 46} && v' == v[..pos + e.at] + [e.cat] + v[pos + e.at + e.k..]
    ensures x == v'
  {
    hide Same;
    forall i | 0 <= i < |x| ensures x[i] == v'[i] {
      if i < pos + e.at {
        assert x[..pos + e.at][i] == v[..pos + e.at][i];
      } else if i > pos + e.at {
        assert Same(e, v[i + e.k - 1], x[i]);
        SameIs(e, v[i + e.k - 1], x[i]);
      }
    }
  }

  /** The reducer sees an insert, and not one alone. */
  ghost predicate SeesInsert(st: State) {
    var w := Look(Cats(st.scraps), st.pos);
    w.c1 == Insert || w.c2 == Insert || w.c3 == Insert || (w.c0 == Insert && w.c1 != Zero)
  }

  /** The production that takes the insert, on the categories. */
  lemma {:induction false} TakenAt(c: seq<Cat>, pos: nat, f: bool)
    requires AllSimple(Bare(c)) && Padded(Look(c, pos))
    requires var w := Look(c, pos); w.c1 == Insert || w.c2 == Insert || w.c3 == Insert || (w.c0 == Insert && w.c1 != Zero)
    ensures var a := Match(Look(c, pos), f);
      && a.Rewrite? && a.n in {0, 83} && a.k == 2 && a.reserve == -1 && a.d <= 0 && pos + a.at + 2 <= |c|
      && ((c[pos + a.at + 1] == Insert && a.cat == c[pos + a.at]) || (c[pos + a.at] == Insert && a.cat == c[pos + a.at + 1]))
      && (a.at == 2 || a.d < 0 || c[pos] == Insert)
  {
    hide Match, Sound, AllSimple, Bare, SimpleOrInsert;
    MixedLook(c, pos);
    Taken(Look(c, pos), f);
    LookAt(c, pos, Match(Look(c, pos), f).at);
  }

  lemma {:induction false} InsertForm(st: State, f: bool)
    requires Pure(st) && st.pos < |st.scraps| && SeesInsert(st)
    ensures var c, a := Cats(st.scraps), Match(WindowAt(st.scraps, st.pos), f);
      && Padded(WindowAt(st.scraps, st.pos)) && a.Rewrite? && st.pos + a.at + 2 <= |c|
      && Cats(Step(st, f).scraps) == c[..st.pos + a.at] + [a.cat] + c[st.pos + a.at + 2..]
      && Step(st, f).pos == Move(st.pos, a.d)
    ensures Bare(Cats(Step(st, f).scraps)) == Bare(Cats(st.scraps)) && Step(st, f).pos <= st.pos && Chosen(st, f) in {0, 83}
    ensures Pure(Step(st, f))
  {
    hide Match, Sound, On, Apply, Ready, Cats, Same, AllSimple, Bare, Makes, Passed, Look;
    var c := Cats(st.scraps);
    WindowPadded(st);
    LookIs(st.scraps, st.pos);
    TakenAt(c, st.pos, f);
    var a := Match(WindowAt(st.scraps, st.pos), f);
    ApplyMakes(st, a);
    var c' := Cats(Apply(st, a).scraps);
    InsertGone(c, st.pos, EffectOf(a), c');
    PassedStill(c, st.pos, a, c');
  }

  lemma {:induction false} LookAt(c: seq<Cat>, pos: nat, at: nat)
    requires at <= 2 && Look(c, pos).At(at + 1) != Zero
    ensures pos + at + 1 < |c| && Look(c, pos).At(at) == c[pos + at] && Look(c, pos).At(at + 1) == c[pos + at + 1]
  {
  }

  lemma {:induction false} PassedStill(c: seq<Cat>, pos: nat, a: Action, c': seq<Cat>)
    requires Passed(c, pos) && a.Rewrite? && a.d <= 0 && pos + a.at + 2 <= |c| && Bare(c') == Bare(c)
    requires c' == c[..pos + a.at] + [a.cat] + c[pos + a.at + 2..]
    requires a.at == 2 || a.d < 0 || c[pos] == Insert
    ensures Passed(c', Move(pos, a.d))
  {
    hide Bare;
    var pos' := Move(pos, a.d);
    if pos' > 0 {
      assert Bare(c) != [] && Clear(c, pos + 1);
      assert c[pos] != Insert;
      assert pos' < pos + a.at;
      forall i | 0 <= i < pos' + 1 && i < |c'| ensures c'[i] != Insert {
        assert c'[i] == c[i];
      }
    }
  }

  lemma {:induction false} InsertExact(st: State, f: bool)
    requires Going(st) && st.pos < |st.scraps| && SeesInsert(st)
    ensures Ready(Step(st, f)) && Going(Step(st, f)) && !StepMisses(st, f)
  {
    hide Match, Step, On, Ready, Look, Cats, AllSimple, Bare, Chosen, Passed, SeesInsert;
    InsertForm(st, f);
  }

  /** Only an insert. */
  ghost predicate Alone(st: State) {
    st.pos + 1 == |st.scraps| && Cats(st.scraps)[st.pos] == Insert
  }

  lemma AloneFirst(c: seq<Cat>, pos: nat)
    requires Passed(c, pos) && pos + 1 == |c| && c[pos] == Insert
    ensures pos == 0
  {
    hide Bare;
  }

  lemma {:induction false} AloneForm(st: State, f: bool)
    requires Pure(st) && st.pos < |st.scraps| && Alone(st)
    ensures st.pos == 0 && Bare(Cats(st.scraps)) == []
    ensures Step(st, f).scraps == st.scraps && Step(st, f).pos == 1 && Chosen(st, f) == 0
  {
    hide Match, Sound, AllSimple, Ready;
    var c := Cats(st.scraps);
    AloneFirst(c, st.pos);
    assert c == [Insert];
    BarePair(Insert, Insert);
    WindowPadded(st);
    InsertWaits(WindowAt(st.scraps, st.pos), f);
  }

  lemma {:induction false} AloneExact(st: State, f: bool)
    requires Going(st) && st.pos < |st.scraps| && Alone(st)
    ensures Ready(Step(st, f)) && Going(Step(st, f)) && !StepMisses(st, f)
  {
    hide Match, Sound, Bare, Cats, Look, On, Chosen, AllSimple, Step;
    AloneForm(st, f);
    StepProgress(st, f);
    NothingThere();
  }

  lemma {:induction false} NothingThere()
    ensures QuietBefore([], 1)
  {
    assert Look([], 0) == Window(Zero, Zero, Zero, Zero);
  }

  lemma {:induction false} InsertWaits(w: Window, f: bool)
    requires w == Window(Insert, Zero, Zero, Zero) && Padded(w)
    ensures Match(w, f) == NoMatch
  {
    hide Sound, Covers, Steady;
  }

  /** Either the reducer sees none, or one that it takes, or one alone. */
  lemma {:induction false} SeesOne(st: State)
    requires Pure(st) && st.pos < |st.scraps|
    ensures SeesNone(st) || SeesInsert(st) || Alone(st)
  {
    hide Ready, AllSimple, Bare;
    var c, pos := Cats(st.scraps), st.pos;
    if !SeesInsert(st) && !Alone(st) {
      forall i | 0 <= i < pos + 4 && i < |c| ensures c[i] != Insert {
        if i > pos {
          assert CatAt(c, i) == c[i];
        } else if pos == 0 || i == pos {
          ZeroBehind(st);
        }
      }
    }
  }

  lemma {:induction false} ZeroBehind(st: State)
    requires Ready(st) && st.pos < |st.scraps|
    ensures CatAt(Cats(st.scraps), st.pos + 1) == Zero <==> st.pos + 1 == |st.scraps|
  {
  }

  /**
   With no production left of pp, one turn of the loop leaves none there if and only if it is
   not one of those that miss one.
   */
  lemma {:induction false} StepExact(st: State, f: bool)
    requires Going(st) && st.pos < |st.scraps|
    ensures Ready(Step(st, f)) && (Going(Step(st, f)) <==> !StepMisses(st, f))
  {
    hide Match, Step, StepMisses, QuietBefore, AllSimple, Ready, SeesNone, SeesInsert, Alone, Passed;
    WindowPadded(st);
    SeesOne(st);
    if SeesInsert(st) {
      InsertExact(st, f);
    } else if Alone(st) {
      AloneExact(st, f);
    } else if Match(WindowAt(st.scraps, st.pos), f).NoMatch? {
      WaitExact(st, f);
    } else {
      FireExact(st, f);
    }
  }

  // ----- The whole reduction -----

  /** The reduction from here on misses no production. */
  ghost predicate NeverMisses(st: State, f: bool)
    requires Ready(st)
    decreases |st.scraps|, RankSum(st.scraps), |st.scraps| - st.pos
  {
    st.pos == |st.scraps| || (StepProgress(st, f); !StepMisses(st, f) && NeverMisses(Step(st, f), f))
  }

  ghost predicate NoneApplies(scraps: seq<Scrap>, i: nat, f: bool) {
    Padded(WindowAt(scraps, i)) && Match(WindowAt(scraps, i), f) == NoMatch
  }

  /** No production applies anywhere. */
  ghost predicate Irreducible(scraps: seq<Scrap>, f: bool) {
    forall i :: 0 <= i < |scraps| ==> NoneApplies(scraps, i, f)
  }

  lemma {:induction false} AtTheEnd(st: State, f: bool)
    requires Going(st) && st.pos == |st.scraps|
    ensures Irreducible(st.scraps, f)
  {
    hide Match, Sound, On, Look, Cats, AllSimple, Bare;
    var c := Cats(st.scraps);
    forall i | 0 <= i < |st.scraps| ensures NoneApplies(st.scraps, i, f) {
      WindowPadded(st.(pos := i));
      LookIs(st.scraps, i);
      if Bare(c) != [] {
        BareClear(c);
        SimpleAt(c, i);
        SimpleMatch(WindowAt(st.scraps, i), f);
      } else {
        LookInsert(c);
        InsertWaits(WindowAt(st.scraps, i), f);
      }
    }
  }

  lemma {:induction false} LookInsert(c: seq<Cat>)
    requires Bare(c) == [] && |c| == 1
    ensures Look(c, 0) == Window(Insert, Zero, Zero, Zero)
  {
  }

  /** If none is missed on the way, none applies to what the reduction leaves. */
  lemma {:induction false} NothingLeft(st: State, f: bool)
    requires Going(st) && NeverMisses(st, f)
    ensures Irreducible(Reduced(st, f).scraps, f)
    decreases |st.scraps|, RankSum(st.scraps), |st.scraps| - st.pos
  {
    hide Step, StepMisses, QuietBefore, AllSimple, Irreducible, Bare, Cats;
    if st.pos == |st.scraps| {
      AtTheEnd(st, f);
    } else {
      StepProgress(st, f);
      StepExact(st, f);
      NothingLeft(Step(st, f), f);
    }
  }

  /** No scrap is a label or can become part of one; nor a typedef, new, operator or do. */
  ghost predicate Harmless(v: seq<Cat>) {
    forall i :: 0 <= i < |v| ==> !Risky(v[i])
  }

  predicate Risky(c: Cat) {
    c in {Tag, Colon, Base, TypedefLike, NewLike, OperatorLike, DoLike}
  }

  /** Labels come of colons, and new of operator. */
  lemma {:induction false} HarmlessEffect(w: Window, e: Effect)
    requires e == On(w) && e.Does? && !Risky(w.c0) && !Risky(w.c1) && !Risky(w.c2)
    ensures !Risky(e.cat)
  {
  }

  lemma {:induction false} HarmlessMakes(v: seq<Cat>, pp: nat, e: Effect, v': seq<Cat>)
    requires Harmless(v) && Makes(v, pp, e, v') && !Risky(e.cat)
    ensures Harmless(v')
  {
    hide Same, Risky;
    forall i | 0 <= i < |v'| ensures !Risky(v'[i]) {
      if i < pp + e.at {
        assert v'[..pp + e.at][i] == v[..pp + e.at][i];
      } else if i > pp + e.at {
        assert Same(e, v[i + e.k - 1], v'[i]);
        SameHarmless(e, v[i + e.k - 1], v'[i]);
      }
    }
  }

  lemma SameHarmless(e: Effect, c: Cat, c': Cat)
    requires e.Does? && Same(e, c, c')
    ensures Risky(c) <==> Risky(c')
  {
  }

  lemma {:induction false} HarmlessLook(v: seq<Cat>, i: nat)
    requires Harmless(v)
    ensures var w := Look(v, i); !Risky(w.c0) && !Risky(w.c1) && !Risky(w.c2) && !Risky(CatAt(v, i))
  {
  }

  lemma {:induction false} HarmlessMisses(v: seq<Cat>, pp: nat, n: nat)
    requires Harmless(v) && n != 101
    ensures !Misses(v, pp, n)
  {
  }

  lemma {:induction false} HarmlessStep(st: State, f: bool)
    requires Going(st) && st.pos < |st.scraps| && Harmless(Bare(Cats(st.scraps)))
    ensures !StepMisses(st, f) && Harmless(Bare(Cats(Step(st, f).scraps)))
  {
    hide Match, Sound, Step, QuietBefore, AllSimple, Ready, On, Makes, Look, Cats, Misses, Bare, Harmless, Risky, Chosen, EffectOf,
      SeesNone, SeesInsert, Alone, Passed;
    var c := Cats(st.scraps);
    WindowPadded(st);
    SeesOne(st);
    if SeesInsert(st) {
      InsertForm(st, f);
      HarmlessMisses(Bare(c), st.pos, Chosen(st, f));
    } else if Alone(st) {
      AloneForm(st, f);
      HarmlessMisses(Bare(c), st.pos, 0);
    } else if Match(WindowAt(st.scraps, st.pos), f).NoMatch? {
      WaitsForm(st, f);
      HarmlessMisses(Bare(c), st.pos, 0);
    } else {
      var e, w := EffectOf(Match(WindowAt(st.scraps, st.pos), f)), Look(Bare(c), st.pos);
      FireForm(st, f);
      HarmlessLook(Bare(c), st.pos);
      HarmlessEffect(w, e);
      HarmlessNumber(e, w);
      HarmlessMisses(Bare(c), st.pos, e.n);
      HarmlessMakes(Bare(c), st.pos, e, Bare(Cats(Step(st, f).scraps)));
    }
  }

  lemma HarmlessNumber(e: Effect, w: Window)
    requires e == On(w) && e.Does? && !Risky(w.c0)
    ensures e.n != 101
  {
    hide On;
    Regularly(w);
  }

  lemma {:induction false} WaitsForm(st: State, f: bool)
    requires Ready(st) && st.pos < |st.scraps| && Padded(WindowAt(st.scraps, st.pos))
    requires Match(WindowAt(st.scraps, st.pos), f).NoMatch?
    ensures Step(st, f).scraps == st.scraps && Chosen(st, f) == 0 && Step(st, f).pos == st.pos + 1
  {
    hide Match, Sound;
  }

  lemma {:induction false} HarmlessNever(st: State, f: bool)
    requires Going(st) && Harmless(Bare(Cats(st.scraps)))
    ensures NeverMisses(st, f)
    decreases |st.scraps|, RankSum(st.scraps), |st.scraps| - st.pos
  {
    hide Step, StepMisses, QuietBefore, AllSimple, Bare, Cats, Harmless;
    if st.pos < |st.scraps| {
      StepProgress(st, f);
      StepExact(st, f);
      HarmlessStep(st, f);
      HarmlessNever(Step(st, f), f);
    }
  }

  /**
   The scraps of a C text without preprocessor lines and macro arguments, and without labels,
   typedef, new, operator and do: no production applies to what the reduction leaves.
   */
  lemma {:induction false} HarmlessIrreducible(st: State, f: bool)
    requires Ready(st) && st.pos == 0 && AllSimple(Bare(Cats(st.scraps))) && Harmless(Bare(Cats(st.scraps)))
    ensures Irreducible(Reduced(st, f).scraps, f)
  {
    hide AllSimple, Harmless, Irreducible, Bare, Cats, NeverMisses, Reduced;
    HarmlessNever(st, f);
    NothingLeft(st, f);
  }

  // ----- Two labels: default: out: -----

  lemma LabelEffects()
    ensures On(Window(CaseLike, Colon, Exp, Colon)) == Does(71, 0, 2, Tag, -1)
    ensures On(Window(Exp, Colon, Zero, Zero)) == Does(7, 0, 2, Tag, 0)
  {
  }

  lemma TagRests(w: Window)
    requires w.c0 == Tag && (w.c1 == Exp || w.c1 == Zero)
    ensures On(w).Rests?
  {
  }

  lemma TagJoins(w: Window)
    requires w.c0 == Tag && w.c1 == Tag
    ensures On(w) == Does(74, 0, 2, Tag, -1)
  {
  }

  /** The list, and where the reducer is in it. */
  ghost predicate Stands(st: State, c: seq<Cat>, pos: nat) {
    Pure(st) && Cats(st.scraps) == c && st.pos == pos
  }

  lemma StandsReady(st: State, c: seq<Cat>, pos: nat)
    requires Stands(st, c, pos)
    ensures Ready(st) && st.pos == pos && |st.scraps| == |c|
  {
    hide Ready, AllSimple, Bare, Cats, Passed;
  }

  lemma {:induction false} StandsSees(st: State, c: seq<Cat>, pos: nat, f: bool)
    requires Stands(st, c, pos) && pos < |c| && Clear(c, pos + 4)
    ensures SeesNone(st) && Padded(WindowAt(st.scraps, pos)) && EffectOf(Match(WindowAt(st.scraps, pos), f)) == On(Look(c, pos))
  {
    hide Match, Sound, On, Look, Cats, Bare, AllSimple, Clear, Passed;
    WindowPadded(st);
    LookIs(st.scraps, pos);
    LookBare(c, pos);
    SimpleAt(Bare(c), pos);
    SimpleMatch(WindowAt(st.scraps, pos), f);
  }

  lemma {:induction false} StandsFires(st: State, c: seq<Cat>, pos: nat, f: bool, c': seq<Cat>)
    requires Stands(st, c, pos) && pos < |c| && Clear(c, pos + 4) && On(Look(c, pos)).Does?
    requires var e := On(Look(c, pos)); e.n !in {42, 45, 46} && pos + e.at + e.k <= |c| && 1 <= e.k
    requires var e := On(Look(c, pos)); c' == c[..pos + e.at] + [e.cat] + c[pos + e.at + e.k..]
    ensures Stands(Step(st, f), c', Move(pos, On(Look(c, pos)).d))
  {
    hide Match, Sound, On, Look, Cats, Bare, AllSimple, Step, Ready, Same, Clear, Passed, SeesNone;
    StandsSees(st, c, pos, f);
    FireForm(st, f);
    SameCats(c, pos, On(Look(c, pos)), Cats(Step(st, f).scraps), c');
  }

  lemma {:induction false} StandsWaits(st: State, c: seq<Cat>, pos: nat, f: bool)
    requires Stands(st, c, pos) && pos < |c| && Clear(c, pos + 4) && On(Look(c, pos)).Rests?
    ensures Stands(Step(st, f), c, pos + 1)
  {
    hide Match, Sound, On, Look, Cats, Bare, AllSimple, Step, Ready, Clear, SeesNone;
    StandsSees(st, c, pos, f);
    WaitsForm(st, f);
    StepProgress(st, f);
    ClearSome(c, pos);
    SomeClear(c, pos);
    ClearLess(c, pos + 4, pos + 2);
  }

  lemma ClearSome(c: seq<Cat>, pos: nat)
    requires Clear(c, pos + 4)
    ensures Clear(c, pos + 1)
  {
  }

  /** The insert goes into the scrap before it, three scraps from the reducer. */
  lemma {:induction false} StandsTakes(st: State, f: bool)
    requires Stands(st, [Tag, Exp, Colon, Insert], 0)
    ensures Stands(Step(st, f), [Tag, Exp, Colon], 0)
  {
    hide Match, Sound, On, Bare, AllSimple, Step, Ready, Passed;
    var c := [Tag, Exp, Colon, Insert];
    assert Look(c, 0) == Window(Tag, Exp, Colon, Insert);
    InsertForm(st, f);
    LookIs(st.scraps, 0);
    TagTakes(WindowAt(st.scraps, 0), f);
    assert c[..2] + [Colon] + c[4..] == [Tag, Exp, Colon];
  }

  lemma {:induction false} TagTakes(w: Window, f: bool)
    requires w == Window(Tag, Exp, Colon, Insert) && Padded(w)
    ensures Match(w, f) == Rewrite(0, 2, 2, Colon, 0, Pair(2), -1)
  {
    hide Sound, MatchCategory, Pair;
  }

  lemma {:induction false} TagsMade(st: State, f: bool)
    requires Stands(st, [Tag, Exp, Colon], 0)
    ensures Stands(Reduced(st, f), [Tag, Tag], 2)
  {
    hide Step, Stands, On, Look;
    var c, c' := [Tag, Exp, Colon], [Tag, Tag];
    LabelEffects();
    LabelLooks();
    TagRests(Look(c, 0));
    TagRests(Look(c', 1));
    StandsReady(st, c, 0);
    StandsWaits(st, c, 0, f);
    var s1 := Step(st, f);
    StandsReady(s1, c, 1);
    assert c' == c[..1] + [Tag] + c[3..];
    StandsFires(s1, c, 1, f, c');
    var s2 := Step(s1, f);
    StandsReady(s2, c', 1);
    StandsWaits(s2, c', 1, f);
    StandsReady(Step(s2, f), c', 2);
    ThreeSteps(st, f);
  }

  lemma ThreeSteps(st: State, f: bool)
    requires Ready(st) && st.pos < |st.scraps| && Ready(Step(st, f)) && Step(st, f).pos < |Step(st, f).scraps|
    requires var s2 := Step(Step(st, f), f); Ready(s2) && s2.pos < |s2.scraps| && Ready(Step(s2, f))
    requires var s3 := Step(Step(Step(st, f), f), f); s3.pos == |s3.scraps|
    ensures Reduced(st, f) == Step(Step(Step(st, f), f), f)
  {
    hide Step;
    var s2 := Step(Step(st, f), f);
    assert Reduced(Step(st, f), f) == Reduced(s2, f);
    assert Reduced(s2, f) == Reduced(Step(s2, f), f);
  }

  lemma LabelLooks()
    ensures Look([Tag, Exp, Colon], 0) == Window(Tag, Exp, Colon, Zero)
    ensures Look([Tag, Exp, Colon], 1) == Window(Exp, Colon, Zero, Zero)
    ensures Look([Tag, Tag], 1) == Window(Tag, Zero, Zero, Zero) && Look([Tag, Tag], 0) == Window(Tag, Tag, Zero, Zero)
    ensures Look([CaseLike, Colon, Exp, Colon, Insert], 0) == Window(CaseLike, Colon, Exp, Colon)
  {
  }

  /** Production 7 does not look for the label before it: production 74 applies to what the reduction of `default: out:` leaves. */
  lemma {:induction false} LabelsLeft(st: State, f: bool)
    requires Ready(st) && st.pos == 0 && Cats(st.scraps) == [CaseLike, Colon, Exp, Colon, Insert]
    ensures var end := Reduced(st, f);
      && Cats(end.scraps) == [Tag, Tag] && Padded(WindowAt(end.scraps, 0))
      && EffectOf(Match(WindowAt(end.scraps, 0), f)) == Does(74, 0, 2, Tag, -1) && !Irreducible(end.scraps, f)
  {
    hide Match, Sound, Step, Stands, On, Look, Reduced, Ready, Irreducible, EffectOf;
    var c, c' := [CaseLike, Colon, Exp, Colon, Insert], [Tag, Exp, Colon, Insert];
    LabelEffects();
    LabelLooks();
    LabelsStand(st);
    StandsReady(st, c, 0);
    assert c' == c[..0] + [Tag] + c[2..];
    StandsFires(st, c, 0, f, c');
    var s1 := Step(st, f);
    StandsReady(s1, c', 0);
    StandsTakes(s1, f);
    var s2 := Step(s1, f);
    StandsReady(s2, [Tag, Exp, Colon], 0);
    TagsMade(s2, f);
    TwoSteps(st, f);
    LabelsEnd(Reduced(st, f), f);
  }

  lemma LabelsStand(st: State)
    requires Ready(st) && st.pos == 0 && Cats(st.scraps) == [CaseLike, Colon, Exp, Colon, Insert]
    ensures Stands(st, [CaseLike, Colon, Exp, Colon, Insert], 0)
  {
    hide Ready, Bare;
    var v := [CaseLike, Colon, Exp, Colon];
    assert v + [Insert] == [CaseLike, Colon, Exp, Colon, Insert];
    BareConcat(v, [Insert]);
    BareClear(v);
    BarePair(Insert, Insert);
    assert Bare(v + [Insert]) == v;
  }

  lemma TwoSteps(st: State, f: bool)
    requires Ready(st) && st.pos < |st.scraps| && Ready(Step(st, f)) && Step(st, f).pos < |Step(st, f).scraps|
    requires Ready(Step(Step(st, f), f))
    ensures Reduced(st, f) == Reduced(Step(Step(st, f), f), f)
  {
    hide Step;
  }

  lemma {:induction false} LabelsEnd(end: State, f: bool)
    requires Stands(end, [Tag, Tag], 2)
    ensures Cats(end.scraps) == [Tag, Tag] && Padded(WindowAt(end.scraps, 0))
    ensures EffectOf(Match(WindowAt(end.scraps, 0), f)) == Does(74, 0, 2, Tag, -1) && !Irreducible(end.scraps, f)
  {
    hide Match, Sound, On, Look, Ready;
    LabelLooks();
    TagJoins(Look([Tag, Tag], 0));
    EndFromStart(end);
    StandsSees(end.(pos := 0), [Tag, Tag], 0, f);
    assert !NoneApplies(end.scraps, 0, f);
  }

  lemma EndFromStart(end: State)
    requires Stands(end, [Tag, Tag], 2)
    ensures Stands(end.(pos := 0), [Tag, Tag], 0)
  {
    hide Bare, AllSimple;
  }
}
