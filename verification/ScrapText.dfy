/**
 Token memory, scraps and the appending routines of CWEAVE, and what a token text means
 to TeX once it is flattened.
 */
module ScrapText {
  import opened ScrapGrammar

  /** Whether a text begins or ends in math mode (yes_math, no_math, maybe_math). */
  datatype Math = Maybe | Yes | No

  /** Sixteen-bit tokens, split by their flag; `Ref` is tok_flag, `Inner` inner_tok_flag. */
  datatype Token =
    | Sym(m: Mark)
    | Ident(n: nat) | Res(n: nat) | Section(n: nat)
    | Ref(t: nat) | Inner(t: nat)

  datatype Scrap = Scrap(cat: Cat, left: Math, right: Math, trans: nat)

  /** `tok_mem[..tok_ptr]` and `tok_start[..text_ptr+1]`. */
  datatype Memory = Memory(toks: seq<Token>, starts: seq<nat>) {
    /** Texts are consecutive and no text is under construction. */
    ghost predicate Frozen() {
      && 1 <= |starts|
      && (forall i, j :: 0 <= i <= j < |starts| ==> starts[i] <= starts[j])
      && starts[|starts| - 1] == |toks|
    }

    /** The number of finished texts, the index `text_ptr`. */
    function Count(): int {
      |starts| - 1
    }

    function Text(t: nat): seq<Token>
      requires Frozen() && t < Count()
    {
      toks[starts[t]..starts[t + 1]]
    }

    ghost function Texts(): (ts: seq<seq<Token>>)
      requires Frozen()
    {
      seq(Count(), t requires 0 <= t < Count() => Text(t))
    }

    /** The appended tokens become one more text. */
    function Append(out: seq<Token>): Memory {
      Memory(toks + out, starts + [|toks| + |out|])
    }
  }

  lemma AppendTexts(m: Memory, out: seq<Token>)
    requires m.Frozen()
    ensures m.Append(out).Frozen() && m.Append(out).Count() == m.Count() + 1
    ensures m.Append(out).Texts() == m.Texts() + [out]
  {
    var m' := m.Append(out);
    forall t | 0 <= t < m'.Count()
      ensures m'.Text(t) == (m.Texts() + [out])[t]
    {
      if t < m.Count() {
        assert m'.starts[t] == m.starts[t] && m'.starts[t + 1] == m.starts[t + 1];
        assert m.starts[t] <= m.starts[t + 1] <= |m.toks|;
      }
    }
  }

  // ----- Appending (cweb/cweave.c:2003-2038) -----

  /** init_mathness, cur_mathness and the text under construction. */
  datatype Pen = Pen(init: Math, cur: Math, out: seq<Token>)

  const BLANK := Pen(Maybe, Maybe, [])
  const OPEN_MATH := [Sym(Ch('$')), Sym(Ch('{')), Sym(Ch('}'))]
  const CLOSE_MATH := [Sym(Ch('{')), Sym(Ch('}')), Sym(Ch('$'))]

  /** Moves the pen to the mode `need`, with a dollar where the mode has to change. */
  function SwitchTo(p: Pen, need: Math): Pen
    requires need != Maybe
  {
    if p.cur == Maybe then Pen(need, need, p.out)
    else if p.cur == need then p
    else Pen(p.init, need, p.out + (if need == Yes then OPEN_MATH else CLOSE_MATH))
  }

  /** `big_app` puts a blank and the codes big_cancel..big_force outside math. */
  function NeedOf(m: Mark): (need: Math)
    ensures need != Maybe
    ensures IsLayout(m) ==> need == No
    ensures IsMathOnly(m) ==> need == Yes
  {
    if m == Ch(' ') || m in {BigCancel, Cancel, Indent, Outdent, Opt, Backup, BreakSpace, Force, BigForce}
    then No else Yes
  }

  function BigApp(p: Pen, m: Mark): Pen {
    var q := SwitchTo(p, NeedOf(m));
    q.(out := q.out + [Sym(m)])
  }

  function BigApp1(p: Pen, s: Scrap): Pen {
    var q := if s.left == Maybe then p else SwitchTo(p, s.left).(cur := s.right);
    q.(out := q.out + [Ref(s.trans)])
  }

  /** One append of a production; `pos` is the index of the scrap at pp. */
  function AppendItem(p: Pen, item: Item, scraps: seq<Scrap>, pos: nat): Pen
    requires item.Whole? ==> pos + item.i < |scraps|
  {
    match item
    case Whole(i) => BigApp1(p, scraps[pos + i])
    case Big(m) => BigApp(p, m)
    case Raw(m) => p.(out := p.out + [Sym(m)])
    case Angle(m) => Pen(Yes, Yes, p.out + [Sym(m)])
  }

  // ----- Flattening -----

  /** What is left of a text once its references are replaced by the texts they name. */
  datatype Atom = Leaf(t: nat) | Mk(m: Mark) | Other(tok: Token)

  /**
   The flattened token list `ts`. Texts below `base` are the leaves: they existed before
   the translation began and are not looked into.
   */
  ghost function Flat(texts: seq<seq<Token>>, base: nat, ts: seq<Token>, bound: nat): seq<Atom>
    decreases bound, |ts|
  {
    if ts == [] then []
    else FlatToken(texts, base, ts[0], bound) + Flat(texts, base, ts[1..], bound)
  }

  ghost function FlatToken(texts: seq<seq<Token>>, base: nat, tok: Token, bound: nat): seq<Atom>
    decreases bound, 0
  {
    match tok
    case Sym(m) => [Mk(m)]
    case Ref(u) =>
      if base <= u < bound && u < |texts| then Flat(texts, base, texts[u], u) else [Leaf(u)]
    case _ => [Other(tok)]
  }

  ghost function FlatText(texts: seq<seq<Token>>, base: nat, t: nat): seq<Atom> {
    FlatToken(texts, base, Ref(t), |texts|)
  }

  lemma {:induction false} FlatConcat(texts: seq<seq<Token>>, base: nat, a: seq<Token>, b: seq<Token>, bound: nat)
    ensures Flat(texts, base, a + b, bound) == Flat(texts, base, a, bound) + Flat(texts, base, b, bound)
  {
    hide FlatToken;
    if a == [] {
      assert a + b == b;
    } else {
      var head := FlatToken(texts, base, a[0], bound);
      FlatConcat(texts, base, a[1..], b, bound);
      assert (a + b)[0] == a[0] && (a + b)[1..] == a[1..] + b;
      var x, y := Flat(texts, base, a[1..], bound), Flat(texts, base, b, bound);
      assert Flat(texts, base, a + b, bound) == head + (x + y);
      assert head + (x + y) == head + x + y;
    }
  }

  lemma FlatSnoc(texts: seq<seq<Token>>, base: nat, a: seq<Token>, tok: Token, bound: nat)
    ensures Flat(texts, base, a + [tok], bound)
         == Flat(texts, base, a, bound) + FlatToken(texts, base, tok, bound)
  {
    FlatConcat(texts, base, a, [tok], bound);
    assert Flat(texts, base, [tok], bound) == FlatToken(texts, base, tok, bound) + Flat(texts, base, [], bound);
  }

  /** Every reference in `ts` is to a text below `bound`. */
  ghost predicate RefsBelow(ts: seq<Token>, bound: nat) {
    forall i :: 0 <= i < |ts| ==>
      (ts[i].Ref? || ts[i].Inner? ==> ts[i].t < bound)
  }

  /** References always point to lower-numbered texts, so flattening is well founded. */
  ghost predicate RefsLower(texts: seq<seq<Token>>) {
    forall t :: 0 <= t < |texts| ==> RefsBelow(texts[t], t)
  }

  /** Flattening only looks at the texts from `base` up to the bound. */
  lemma {:induction false} FlatFrame(texts: seq<seq<Token>>, texts': seq<seq<Token>>, base: nat,
                                     ts: seq<Token>, bound: nat, bound': nat)
    requires RefsBelow(ts, bound) && bound <= bound'
    requires bound <= |texts| && bound <= |texts'|
    requires forall u :: base <= u < bound ==> texts[u] == texts'[u] && RefsBelow(texts[u], u)
    ensures Flat(texts, base, ts, bound) == Flat(texts', base, ts, bound')
    decreases bound, |ts|
  {
    if ts != [] {
      if ts[0].Ref? && base <= ts[0].t {
        var u := ts[0].t;
        FlatFrame(texts, texts', base, texts[u], u, u);
      }
      FlatFrame(texts, texts', base, ts[1..], bound, bound');
    }
  }

  // ----- What TeX makes of it -----

  /** TeX's mode, or Bad once something stood in the wrong one. */
  datatype Run = Bad | At(math: bool)

  /** A dollar switches the mode; leaves and marked tokens must meet the mode they need. */
  ghost function ExecAtom(tag: seq<Math>, math: bool, a: Atom): Run {
    match a
    case Leaf(t) =>
      if t < |tag| && ((tag[t] == Yes && !math) || (tag[t] == No && math)) then Bad else At(math)
    case Mk(m) =>
      if m == Ch('$') then At(!math)
      else if (IsLayout(m) && math) || (IsMathOnly(m) && !math) then Bad
      else At(math)
    case Other(_) => At(math)
  }

  ghost function Exec(tag: seq<Math>, r: Run, atoms: seq<Atom>): Run
    decreases |atoms|
  {
    if atoms == [] || r.Bad? then r
    else Exec(tag, ExecAtom(tag, r.math, atoms[0]), atoms[1..])
  }

  lemma {:induction false} ExecConcat(tag: seq<Math>, r: Run, a: seq<Atom>, b: seq<Atom>)
    ensures Exec(tag, r, a + b) == Exec(tag, Exec(tag, r, a), b)
    decreases |a|
  {
    if a == [] {
      assert a + b == b;
    } else if r.At? {
      ExecConcat(tag, ExecAtom(tag, r.math, a[0]), a[1..], b);
      assert (a + b)[1..] == a[1..] + b;
    }
  }

  /**
   The carrying invariant: flattened, a text of mathness (left, right) takes TeX from the
   mode `left` to the mode `right`; a maybe_math text works in either mode and keeps it.
   */
  ghost predicate Moves(tag: seq<Math>, atoms: seq<Atom>, left: Math, right: Math) {
    && (left == Maybe <==> right == Maybe)
    && (left == Maybe ==>
          Exec(tag, At(false), atoms) == At(false) && Exec(tag, At(true), atoms) == At(true))
    && (left != Maybe ==> Exec(tag, At(left == Yes), atoms) == At(right == Yes))
  }

  /** The leaves of a text and the angle brackets typed in place of one, in order. */
  ghost function Content(atoms: seq<Atom>): seq<Atom> {
    if atoms == [] then []
    else (if IsContent(atoms[0]) then [atoms[0]] else []) + Content(atoms[1..])
  }

  predicate IsContent(a: Atom) {
    a.Leaf? || a == Mk(Ch('<')) || a == Mk(Ch('>'))
  }

  lemma {:induction false} ContentConcat(a: seq<Atom>, b: seq<Atom>)
    ensures Content(a + b) == Content(a) + Content(b)
  {
    hide IsContent;
    if a == [] {
      assert a + b == b;
    } else {
      ContentConcat(a[1..], b);
      assert (a + b)[1..] == a[1..] + b && (a + b)[0] == a[0];
      var first := if IsContent(a[0]) then [a[0]] else [];
      assert Content(a + b) == first + (Content(a[1..]) + Content(b));
      Associative(first, Content(a[1..]), Content(b));
    }
  }

  lemma Associative(a: seq<Atom>, b: seq<Atom>, c: seq<Atom>)
    ensures a + (b + c) == (a + b) + c
  {
  }

  // ----- Appending keeps the invariant -----

  ghost predicate PenMoves(tag: seq<Math>, texts: seq<seq<Token>>, base: nat, p: Pen) {
    Moves(tag, Flat(texts, base, p.out, |texts|), p.init, p.cur)
  }

  ghost predicate ScrapMoves(tag: seq<Math>, texts: seq<seq<Token>>, base: nat, s: Scrap) {
    Moves(tag, FlatText(texts, base, s.trans), s.left, s.right)
  }

  lemma SwitchMoves(tag: seq<Math>, texts: seq<seq<Token>>, base: nat, p: Pen, need: Math)
    requires PenMoves(tag, texts, base, p) && need != Maybe
    ensures PenMoves(tag, texts, base, SwitchTo(p, need))
    ensures SwitchTo(p, need).cur == need
  {
    if p.cur != Maybe && p.cur != need {
      var s := if need == Yes then OPEN_MATH else CLOSE_MATH;
      var a0 := Flat(texts, base, p.out, |texts|);
      var a1, a2, a3 := a0 + [Mk(s[0].m)], a0 + [Mk(s[0].m)] + [Mk(s[1].m)], a0 + [Mk(s[0].m)] + [Mk(s[1].m)] + [Mk(s[2].m)];
      SwitchFlat(texts, base, p, need);
      var start := At(p.init == Yes);
      ExecMark(tag, start, a0, s[0].m);
      ExecMark(tag, start, a1, s[1].m);
      ExecMark(tag, start, a2, s[2].m);
    }
  }

  lemma ExecMark(tag: seq<Math>, r: Run, atoms: seq<Atom>, m: Mark)
    ensures Exec(tag, r, atoms + [Mk(m)])
         == (var q := Exec(tag, r, atoms); if q.Bad? then Bad else ExecAtom(tag, q.math, Mk(m)))
  {
    ExecConcat(tag, r, atoms, [Mk(m)]);
    assert [Mk(m)][1..] == [];
  }

  /** A change of mode appends three marks. */
  lemma SwitchFlat(texts: seq<seq<Token>>, base: nat, p: Pen, need: Math)
    requires p.cur != Maybe && need != Maybe && p.cur != need
    ensures var s := if need == Yes then OPEN_MATH else CLOSE_MATH;
      Flat(texts, base, SwitchTo(p, need).out, |texts|)
      == Flat(texts, base, p.out, |texts|) + [Mk(s[0].m)] + [Mk(s[1].m)] + [Mk(s[2].m)]
  {
    var s := if need == Yes then OPEN_MATH else CLOSE_MATH;
    var a1, a2 := p.out + [s[0]], p.out + [s[0]] + [s[1]];
    assert p.out + s == a2 + [s[2]];
    FlatSnoc(texts, base, p.out, s[0], |texts|);
    FlatSnoc(texts, base, a1, s[1], |texts|);
    FlatSnoc(texts, base, a2, s[2], |texts|);
  }

  /** Appending atoms that are at home in the pen's current mode. */
  lemma SnocMoves(tag: seq<Math>, before: seq<Atom>, more: seq<Atom>, init: Math, mid: Math, cur: Math)
    requires Moves(tag, before, init, mid)
    requires Moves(tag, more, mid, cur)
          || (cur == mid && Moves(tag, more, Maybe, Maybe))
    ensures Moves(tag, before + more, init, cur)
  {
    if init == Maybe {
      ExecConcat(tag, At(false), before, more);
      ExecConcat(tag, At(true), before, more);
    } else {
      ExecConcat(tag, At(init == Yes), before, more);
    }
  }

  lemma MarkMoves(tag: seq<Math>, m: Mark)
    requires m != Ch('$')
    ensures NeedOf(m) == Yes ==> Moves(tag, [Mk(m)], Yes, Yes)
    ensures NeedOf(m) == No ==> Moves(tag, [Mk(m)], No, No)
    ensures !IsLayout(m) && !IsMathOnly(m) ==> Moves(tag, [Mk(m)], Maybe, Maybe)
  {
    assert [Mk(m)][1..] == [];
    assert forall b :: Exec(tag, At(b), [Mk(m)]) == Exec(tag, ExecAtom(tag, b, Mk(m)), []);
  }

  /** The mode a layout token left by `big_app` guarantees to the raw token after it. */
  ghost predicate FitsRaw(p: Pen, prev: Item) {
    prev.Big? && IsLayout(prev.m) ==> p.cur == No
  }

  /** What one append does to mode, content and references. */
  lemma AppendItemMoves(tag: seq<Math>, texts: seq<seq<Token>>, base: nat, p: Pen, item: Item,
                        scraps: seq<Scrap>, pos: nat, prev: Item)
    requires PenMoves(tag, texts, base, p) && FitsRaw(p, prev)
    requires item.Whole? ==> pos + item.i < |scraps| && ScrapMoves(tag, texts, base, scraps[pos + item.i])
    requires item.Big? ==> item.m != Ch('$')
    requires item.Raw? ==> item.m != Ch('$') && !IsMathOnly(item.m) && (IsLayout(item.m) ==> prev == Big(item.m))
    requires item.Angle? ==> p == BLANK && (item.m == Ch('<') || item.m == Ch('>'))
    ensures PenMoves(tag, texts, base, AppendItem(p, item, scraps, pos))
    ensures FitsRaw(AppendItem(p, item, scraps, pos), item)
  {
    var n := |texts|;
    match item
    case Whole(i) =>
      var s := scraps[pos + i];
      if s.left == Maybe {
        FlatSnoc(texts, base, p.out, Ref(s.trans), n);
        SnocMoves(tag, Flat(texts, base, p.out, n), FlatText(texts, base, s.trans), p.init, p.cur, p.cur);
      } else {
        SwitchMoves(tag, texts, base, p, s.left);
        var q := SwitchTo(p, s.left);
        FlatSnoc(texts, base, q.out, Ref(s.trans), n);
        SnocMoves(tag, Flat(texts, base, q.out, n), FlatText(texts, base, s.trans), q.init, q.cur, s.right);
      }
    case Big(m) =>
      SwitchMoves(tag, texts, base, p, NeedOf(m));
      var q := SwitchTo(p, NeedOf(m));
      FlatSnoc(texts, base, q.out, Sym(m), n);
      MarkMoves(tag, m);
      SnocMoves(tag, Flat(texts, base, q.out, n), [Mk(m)], q.init, q.cur, q.cur);
    case Raw(m) =>
      FlatSnoc(texts, base, p.out, Sym(m), n);
      MarkMoves(tag, m);
      SnocMoves(tag, Flat(texts, base, p.out, n), [Mk(m)], p.init, p.cur, p.cur);
    case Angle(m) =>
      FlatSnoc(texts, base, [], Sym(m), n);
      assert [] + [Sym(m)] == [Sym(m)] && [] + [Mk(m)] == [Mk(m)];
      MarkMoves(tag, m);
  }

  lemma FlatTextIs(texts: seq<seq<Token>>, base: nat, t: nat)
    ensures FlatText(texts, base, t) == FlatToken(texts, base, Ref(t), |texts|)
  {
  }

  lemma FlatSym(texts: seq<seq<Token>>, base: nat, m: Mark, bound: nat)
    ensures FlatToken(texts, base, Sym(m), bound) == [Mk(m)]
  {
  }

  lemma ContentOne(m: Mark)
    ensures Content([Mk(m)]) == if IsContent(Mk(m)) then [Mk(m)] else []
  {
    assert [Mk(m)][1..] == [];
  }

  /** An append adds to the content exactly the content of the scrap it appends. */
  lemma AppendItemContent(texts: seq<seq<Token>>, base: nat, p: Pen, item: Item, scraps: seq<Scrap>, pos: nat)
    requires !item.Angle? && (item.Whole? ==> pos + item.i < |scraps|)
    requires (item.Big? || item.Raw?) ==> !IsContent(Mk(item.m))
    ensures Content(Flat(texts, base, AppendItem(p, item, scraps, pos).out, |texts|))
         == Content(Flat(texts, base, p.out, |texts|))
          + (if item.Whole? then Content(FlatText(texts, base, scraps[pos + item.i].trans)) else [])
  {
    hide Flat, FlatText, FlatToken, Content;
    var n := |texts|;
    match item
    case Whole(i) =>
      var s := scraps[pos + i];
      FlatTextIs(texts, base, s.trans);
      var q := if s.left == Maybe then p else SwitchTo(p, s.left);
      SwitchContent(texts, base, p, s.left);
      FlatSnoc(texts, base, q.out, Ref(s.trans), n);
      ContentConcat(Flat(texts, base, q.out, n), FlatText(texts, base, s.trans));
    case Big(m) =>
      var q := SwitchTo(p, NeedOf(m));
      SwitchContent(texts, base, p, NeedOf(m));
      FlatSnoc(texts, base, q.out, Sym(m), n);
      FlatSym(texts, base, m, n);
      ContentConcat(Flat(texts, base, q.out, n), [Mk(m)]);
      ContentOne(m);
    case Raw(m) =>
      FlatSnoc(texts, base, p.out, Sym(m), n);
      FlatSym(texts, base, m, n);
      ContentConcat(Flat(texts, base, p.out, n), [Mk(m)]);
      ContentOne(m);
  }

  lemma SwitchContent(texts: seq<seq<Token>>, base: nat, p: Pen, need: Math)
    ensures need != Maybe ==>
      Content(Flat(texts, base, SwitchTo(p, need).out, |texts|)) == Content(Flat(texts, base, p.out, |texts|))
  {
    if need != Maybe && p.cur != Maybe && p.cur != need {
      SwitchFlat(texts, base, p, need);
      forall m: Mark, atoms: seq<Atom> | !IsContent(Mk(m))
        ensures Content(atoms + [Mk(m)]) == Content(atoms)
      {
        ContentConcat(atoms, [Mk(m)]);
        assert [Mk(m)][1..] == [];
      }
    }
  }
}
