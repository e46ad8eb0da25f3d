/**
 CWEAVE's reduction of a scrap list, on values: what one pass of the loop does to the
 list, that the loop stops, and what every run of it keeps.
 */
module ScrapRewrite {
  import opened ScrapGrammar
  import opened ScrapText

  /** The scraps still to be combined, the index of pp in them, and the token memory. */
  datatype State = State(scraps: seq<Scrap>, pos: nat, mem: Memory)

  function CatAt(scraps: seq<Scrap>, i: nat): Cat {
    if i < |scraps| then scraps[i].cat else Zero
  }

  function WindowAt(scraps: seq<Scrap>, pos: nat): Window {
    Window(CatAt(scraps, pos), CatAt(scraps, pos + 1), CatAt(scraps, pos + 2), CatAt(scraps, pos + 3))
  }

  // ----- Reserved identifiers (cweb/cweave.c:2043-2090) -----

  /** `find_first_ident`: the place of the first identifier in text t, or -1. */
  function FirstIdent(m: Memory, t: nat): (loc: int)
    requires m.Frozen()
    ensures loc == -1 || (0 <= loc < |m.toks| && (m.toks[loc].Ident? || m.toks[loc].Res?))
    decreases t, 1, 0
  {
    if t < m.Count() then FirstIdentFrom(m, t, m.starts[t]) else -1
  }

  function FirstIdentFrom(m: Memory, t: nat, j: nat): (loc: int)
    requires m.Frozen() && t < m.Count() && m.starts[t] <= j <= m.starts[t + 1]
    ensures loc == -1 || (0 <= loc < |m.toks| && (m.toks[loc].Ident? || m.toks[loc].Res?))
    decreases t, 0, m.starts[t + 1] - j
  {
    if j == m.starts[t + 1] then -1
    else
      assert m.starts[t + 1] <= |m.toks|;
      match m.toks[j]
      case Ident(_) => j
      case Res(_) => j
      case Ref(u) =>
        var q := if u < t then FirstIdent(m, u) else -1;
        if q != -1 then q else FirstIdentFrom(m, t, j + 1)
      case Inner(u) =>
        var q := if u < t then FirstIdent(m, u) else -1;
        if q != -1 then q else FirstIdentFrom(m, t, j + 1)
      case Sym(mark) => if mark == Inserted then -1 else FirstIdentFrom(m, t, j + 1)
      case Section(_) => FirstIdentFrom(m, t, j + 1)
  }

  function Retag(m: Memory, loc: nat, n: nat): Memory
    requires loc < |m.toks|
  {
    m.(toks := m.toks[loc := Res(n)])
  }

  /**
   The loop of `make_reserved`: from scrap i on, every exp whose first token is v turns
   into raw_int, and that token into a reserved word. (The token read for an empty text
   is the one stored after it.)
   */
  function ReserveFrom(m: Memory, scraps: seq<Scrap>, i: nat, v: Token): (Memory, seq<Scrap>)
    requires m.Frozen() && (v.Ident? || v.Res?) && i <= |scraps|
    requires forall j :: 0 <= j < |scraps| ==> scraps[j].trans < m.Count()
    decreases |scraps| - i
  {
    if i == |scraps| then (m, scraps)
    else
      assert scraps[i].trans < m.Count();
      var loc := m.starts[scraps[i].trans];
      if scraps[i].cat == Exp && loc < |m.toks| && m.toks[loc] == v then
        ReserveFrom(Retag(m, loc, v.n), scraps[i := scraps[i].(cat := RawInt)], i + 1, v)
      else ReserveFrom(m, scraps, i + 1, v)
  }

  function MakeReserved(m: Memory, scraps: seq<Scrap>, p: nat): (Memory, seq<Scrap>)
    requires m.Frozen() && p < |scraps|
    requires forall j :: 0 <= j < |scraps| ==> scraps[j].trans < m.Count()
  {
    var loc := FirstIdent(m, scraps[p].trans);
    if loc == -1 then (m, scraps)
    else
      var v := m.toks[loc];
      var (m', scraps') := ReserveFrom(m, scraps, p, v);
      ReserveSame(m, scraps, p, v);
      (Retag(m', loc, v.n), scraps')
  }

  /** Only identifiers change, and only into reserved words of the same name. */
  ghost predicate Retagged(m: Memory, m': Memory) {
    && m'.starts == m.starts && |m'.toks| == |m.toks|
    && forall i :: 0 <= i < |m.toks| ==>
         m'.toks[i] == m.toks[i]
         || ((m.toks[i].Ident? || m.toks[i].Res?) && m'.toks[i] == Res(m.toks[i].n))
  }

  /** Only categories change, and only from exp to raw_int. */
  ghost predicate Recategorised(scraps: seq<Scrap>, scraps': seq<Scrap>) {
    |scraps'| == |scraps| && forall i :: 0 <= i < |scraps| ==> Similar(scraps[i], scraps'[i])
  }

  ghost predicate Similar(s: Scrap, s': Scrap) {
    s' == s || (s.cat == Exp && s' == s.(cat := RawInt))
  }

  lemma {:induction false} ReserveSame(m: Memory, scraps: seq<Scrap>, i: nat, v: Token)
    requires m.Frozen() && (v.Ident? || v.Res?) && i <= |scraps|
    requires forall j :: 0 <= j < |scraps| ==> scraps[j].trans < m.Count()
    ensures var (m', scraps') := ReserveFrom(m, scraps, i, v);
      Retagged(m, m') && Recategorised(scraps, scraps') && scraps'[..i] == scraps[..i]
    decreases |scraps| - i
  {
    hide Retagged, Recategorised;
    if i < |scraps| {
      var loc := m.starts[scraps[i].trans];
      if scraps[i].cat == Exp && loc < |m.toks| && m.toks[loc] == v {
        var m1, scraps1 := Retag(m, loc, v.n), scraps[i := scraps[i].(cat := RawInt)];
        ReserveSame(m1, scraps1, i + 1, v);
        var (m2, scraps2) := ReserveFrom(m1, scraps1, i + 1, v);
        RetaggedOnce(m, loc, m2);
        RecategorisedOnce(scraps, i, scraps2);
        assert scraps2[..i] == scraps2[..i + 1][..i] == scraps[..i];
      } else {
        ReserveSame(m, scraps, i + 1, v);
        var scraps' := ReserveFrom(m, scraps, i + 1, v).1;
        LengthKept(scraps, scraps');
        assert scraps'[..i] == scraps'[..i + 1][..i] == scraps[..i];
      }
    } else {
      NothingReserved(m, scraps);
    }
  }

  lemma NothingReserved(m: Memory, scraps: seq<Scrap>)
    ensures Retagged(m, m) && Recategorised(scraps, scraps)
  {
  }

  lemma LengthKept(scraps: seq<Scrap>, scraps': seq<Scrap>)
    requires Recategorised(scraps, scraps')
    ensures |scraps'| == |scraps|
  {
  }

  lemma RetaggedOnce(m: Memory, loc: nat, m': Memory)
    requires loc < |m.toks| && (m.toks[loc].Ident? || m.toks[loc].Res?) && Retagged(Retag(m, loc, m.toks[loc].n), m')
    ensures Retagged(m, m')
  {
  }

  lemma RecategorisedOnce(scraps: seq<Scrap>, i: nat, scraps': seq<Scrap>)
    requires i < |scraps| && scraps[i].cat == Exp && Recategorised(scraps[i := scraps[i].(cat := RawInt)], scraps')
    ensures Recategorised(scraps, scraps') && |scraps'| == |scraps|
  {
    var scraps1 := scraps[i := scraps[i].(cat := RawInt)];
    forall j | 0 <= j < |scraps| ensures Similar(scraps[j], scraps'[j]) {
      assert Similar(scraps1[j], scraps'[j]);
    }
  }

  lemma MakeReservedSame(m: Memory, scraps: seq<Scrap>, p: nat)
    requires m.Frozen() && p < |scraps|
    requires forall j :: 0 <= j < |scraps| ==> scraps[j].trans < m.Count()
    ensures var (m', scraps') := MakeReserved(m, scraps, p);
      Retagged(m, m') && Recategorised(scraps, scraps') && scraps'[..p] == scraps[..p]
  {
    var loc := FirstIdent(m, scraps[p].trans);
    if loc != -1 {
      ReserveSame(m, scraps, p, m.toks[loc]);
    }
  }

  /** Where the text of the scrap begins. */
  function StartOf(m: Memory, s: Scrap): int {
    if s.trans < m.Count() then m.starts[s.trans] else -1
  }

  /** The text of the scrap begins with this token. */
  predicate BeginsWith(m: Memory, s: Scrap, v: Token) {
    0 <= StartOf(m, s) < |m.toks| && m.toks[StartOf(m, s)] == v
  }

  /** An exp scrap from i on begins at the same place, its text being empty. */
  ghost predicate Shared(m: Memory, scraps: seq<Scrap>, i: nat, j: nat)
    requires j < |scraps|
  {
    exists l :: i <= l < j && StartOf(m, scraps[l]) == StartOf(m, scraps[j])
  }

  /** Once a token is reserved it stays so. */
  lemma {:induction false} ReservedStays(m: Memory, scraps: seq<Scrap>, i: nat, v: Token, loc: nat)
    requires m.Frozen() && (v.Ident? || v.Res?) && i <= |scraps| && loc < |m.toks| && m.toks[loc] == Res(v.n)
    requires forall l :: 0 <= l < |scraps| ==> scraps[l].trans < m.Count()
    ensures var (m', scraps') := ReserveFrom(m, scraps, i, v);
      m'.starts == m.starts && |m'.toks| == |m.toks| && m'.toks[loc] == Res(v.n)
  {
    hide ReserveFrom;
    ReserveSame(m, scraps, i, v);
  }

  lemma {:induction false} ReserveDoes(m: Memory, scraps: seq<Scrap>, i: nat, v: Token, j: nat)
    requires m.Frozen() && (v.Ident? || v.Res?) && i <= j < |scraps|
    requires forall l :: 0 <= l < |scraps| ==> scraps[l].trans < m.Count()
    requires scraps[j].cat == Exp && BeginsWith(m, scraps[j], v)
    ensures var (m', scraps') := ReserveFrom(m, scraps, i, v);
      && m'.starts == m.starts && |m'.toks| == |m.toks| && |scraps'| == |scraps|
      && m'.toks[StartOf(m, scraps[j])] == Res(v.n)
      && (scraps'[j].cat == RawInt || Shared(m, scraps, i, j))
    decreases |scraps| - i
  {
    hide Recategorised, ReserveFrom, Retagged, Shared;
    ReserveUnfold(m, scraps, i, v);
    var loc, there := m.starts[scraps[i].trans], StartOf(m, scraps[j]);
    if scraps[i].cat == Exp && loc < |m.toks| && m.toks[loc] == v {
      var m1, scraps1 := Retag(m, loc, v.n), scraps[i := scraps[i].(cat := RawInt)];
      ReserveSame(m1, scraps1, i + 1, v);
      var (m2, scraps2) := ReserveFrom(m1, scraps1, i + 1, v);
      LengthKept(scraps1, scraps2);
      if there == loc {
        ReservedStays(m1, scraps1, i + 1, v, loc);
        if i == j { KeptRaw(scraps1, scraps2, j); } else { SharedHere(m, scraps, i, j); }
      } else {
        ReserveDoes(m1, scraps1, i + 1, v, j);
        SharedEarlier(m, scraps, m1, scraps1, i, j);
      }
    } else {
      ReserveDoes(m, scraps, i + 1, v, j);
      SharedEarlier(m, scraps, m, scraps, i, j);
    }
  }

  lemma ReserveUnfold(m: Memory, scraps: seq<Scrap>, i: nat, v: Token)
    requires m.Frozen() && (v.Ident? || v.Res?) && i < |scraps|
    requires forall l :: 0 <= l < |scraps| ==> scraps[l].trans < m.Count()
    ensures scraps[i].trans < m.Count() && 0 <= m.starts[scraps[i].trans]
    ensures var loc := m.starts[scraps[i].trans];
      ReserveFrom(m, scraps, i, v)
      == if scraps[i].cat == Exp && loc < |m.toks| && m.toks[loc] == v then
           ReserveFrom(Retag(m, loc, v.n), scraps[i := scraps[i].(cat := RawInt)], i + 1, v)
         else ReserveFrom(m, scraps, i + 1, v)
  {
  }

  lemma SharedHere(m: Memory, scraps: seq<Scrap>, i: nat, j: nat)
    requires i < j < |scraps| && StartOf(m, scraps[i]) == StartOf(m, scraps[j])
    ensures Shared(m, scraps, i, j)
  {
  }

  lemma KeptRaw(scraps: seq<Scrap>, scraps': seq<Scrap>, j: nat)
    requires Recategorised(scraps, scraps') && j < |scraps| && scraps[j].cat == RawInt
    ensures |scraps'| == |scraps| && scraps'[j].cat == RawInt
  {
    assert Similar(scraps[j], scraps'[j]);
  }

  lemma SharedEarlier(m: Memory, scraps: seq<Scrap>, m1: Memory, scraps1: seq<Scrap>, i: nat, j: nat)
    requires i < j < |scraps| == |scraps1| && m1.starts == m.starts
    requires forall l :: 0 <= l < |scraps| ==> scraps1[l].trans == scraps[l].trans
    ensures Shared(m1, scraps1, i + 1, j) ==> Shared(m, scraps, i, j)
  {
  }

  /**
   What `make_reserved` does: the first identifier is a reserved word afterwards, and so is the
   same identifier at the beginning of every exp scrap from there on; those are of category
   raw_int, unless an empty text made another scrap begin at the same place.
   */
  lemma MakeReservedDoes(m: Memory, scraps: seq<Scrap>, p: nat, j: nat)
    requires m.Frozen() && p <= j < |scraps|
    requires forall l :: 0 <= l < |scraps| ==> scraps[l].trans < m.Count()
    ensures var loc := FirstIdent(m, scraps[p].trans);
      loc >= 0 ==>
        var (m', scraps') := MakeReserved(m, scraps, p);
        && m'.starts == m.starts && |m'.toks| == |m.toks| && |scraps'| == |scraps|
        && m'.toks[loc] == Res(m.toks[loc].n)
        && (scraps[j].cat == Exp && BeginsWith(m, scraps[j], m.toks[loc]) ==>
              && m'.toks[StartOf(m, scraps[j])] == Res(m.toks[loc].n)
              && (scraps'[j].cat == RawInt || Shared(m, scraps, p, j)))
  {
    var loc := FirstIdent(m, scraps[p].trans);
    if loc >= 0 {
      var v := m.toks[loc];
      ReserveSame(m, scraps, p, v);
      if scraps[j].cat == Exp && BeginsWith(m, scraps[j], v) { ReserveDoes(m, scraps, p, v, j); }
    }
  }

  /** A text that begins with an identifier has it as its first; one that begins with a reference to such a text, too. */
  lemma FirstIdentOf(m: Memory, t: nat)
    requires m.Frozen() && t < m.Count() && m.starts[t] < m.starts[t + 1]
    ensures var x := m.toks[m.starts[t]];
      && (x.Ident? || x.Res? ==> FirstIdent(m, t) == m.starts[t])
      && (x == Sym(Inserted) ==> FirstIdent(m, t) == -1)
      && ((x.Ref? || x.Inner?) && x.t < t && FirstIdent(m, x.t) != -1 ==> FirstIdent(m, t) == FirstIdent(m, x.t))
  {
  }

  // ----- One pass of the loop (cweb/cweave.c:2269-2942) -----

  /** What `translate` starts from and every pass keeps. */
  ghost predicate Ready(st: State) {
    && st.mem.Frozen()
    && st.pos <= |st.scraps|
    && forall i :: 0 <= i < |st.scraps| ==> st.scraps[i].cat != Zero && st.scraps[i].trans < st.mem.Count()
  }

  /** The appends of a production, from item i on. */
  function AppendFrom(p: Pen, items: seq<Item>, i: nat, scraps: seq<Scrap>, pos: nat): Pen
    requires i <= |items| && InRange(items, |scraps|, pos)
    decreases |items| - i
  {
    if i == |items| then p
    else AppendFrom(AppendItem(p, items[i], scraps, pos), items, i + 1, scraps, pos)
  }

  ghost predicate InRange(items: seq<Item>, n: nat, pos: nat) {
    forall i :: 0 <= i < |items| && items[i].Whole? ==> pos + items[i].i < n
  }

  lemma {:induction false} CoversInRange(items: seq<Item>, i: nat, at: nat, k: nat)
    requires i <= |items| && Covers(items, i, at, k)
    ensures forall j :: i <= j < |items| && items[j].Whole? ==> at <= items[j].i < at + k
    decreases |items| - i
  {
    if i < |items| {
      if items[i].Whole? { CoversInRange(items, i + 1, at + 1, k - 1); }
      else { CoversInRange(items, i + 1, at, k); }
    }
  }

  /** `pp+d`, but not before the first scrap. */
  function Move(pos: nat, d: int): nat {
    if pos + d >= 0 then pos + d else 0
  }

  /** The chosen production applies to a run of real scraps. */
  lemma ActionFits(st: State, a: Action)
    requires Ready(st) && st.pos < |st.scraps| && Sound(a, WindowAt(st.scraps, st.pos))
    ensures a.Relabel? ==> st.pos + a.at < |st.scraps|
    ensures a.Rewrite? ==>
      && 1 <= a.k && st.pos + a.at + a.k <= |st.scraps|
      && InRange(a.items, |st.scraps|, st.pos)
      && (a.reserve >= 0 ==> st.pos + a.reserve < |st.scraps|)
  {
    if a.Rewrite? {
      var w := WindowAt(st.scraps, st.pos);
      if !IsBracket(a, w) {
        CoversInRange(a.items, 0, a.at, a.k);
      }
    }
  }

  lemma WindowPadded(st: State)
    requires Ready(st) && st.pos < |st.scraps|
    ensures Padded(WindowAt(st.scraps, st.pos))
  {
  }

  /** The state after `make_reserved`, when the production calls it. */
  function Reserve(st: State, reserve: int): (Memory, seq<Scrap>)
    requires Ready(st) && (reserve >= 0 ==> st.pos + reserve < |st.scraps|)
  {
    if reserve >= 0 then MakeReserved(st.mem, st.scraps, st.pos + reserve) else (st.mem, st.scraps)
  }

  lemma ReserveKeeps(st: State, reserve: int)
    requires Ready(st) && (reserve >= 0 ==> st.pos + reserve < |st.scraps|)
    ensures var (m, scraps) := Reserve(st, reserve);
      && Retagged(st.mem, m) && Recategorised(st.scraps, scraps) && m.Frozen()
      && Ready(State(scraps, st.pos, m))
  {
    if reserve >= 0 {
      MakeReservedSame(st.mem, st.scraps, st.pos + reserve);
    }
  }

  /** Replaces the k scraps at j by one. */
  function Replace(scraps: seq<Scrap>, j: nat, k: nat, s: Scrap): seq<Scrap>
    requires j + k <= |scraps|
  {
    scraps[..j] + [s] + scraps[j + k..]
  }

  /** The text and mathness a rewriting production builds, once `make_reserved` has run. */
  function Built(st: State, a: Action): (Memory, seq<Scrap>, Pen)
    requires Ready(st) && st.pos < |st.scraps| && Sound(a, WindowAt(st.scraps, st.pos)) && a.Rewrite?
  {
    ActionFits(st, a);
    ReserveKeeps(st, a.reserve);
    var (m, scraps) := Reserve(st, a.reserve);
    (m, scraps, AppendFrom(BLANK, a.items, 0, scraps, st.pos))
  }

  function Apply(st: State, a: Action): State
    requires Ready(st) && st.pos < |st.scraps| && Sound(a, WindowAt(st.scraps, st.pos))
  {
    ActionFits(st, a);
    match a
    case NoMatch => st.(pos := st.pos + 1)
    case Relabel(_, at, c, d) =>
      var j := st.pos + at;
      State(st.scraps[j := st.scraps[j].(cat := c)], Move(st.pos, d), st.mem)
    case Rewrite(_, at, k, c, d, _, reserve) =>
      ReserveKeeps(st, reserve);
      var (m, scraps, pen) := Built(st, a);
      var s := Scrap(c, pen.init, pen.cur, m.Count());
      State(Replace(scraps, st.pos + at, k, s), Move(st.pos, d), m.Append(pen.out))
  }

  /** A rewriting production, step by step: the scraps once `make_reserved` has run, and what becomes of them. */
  lemma AppliedForm(st: State, a: Action) returns (m: Memory, scraps: seq<Scrap>, pen: Pen)
    requires Ready(st) && st.pos < |st.scraps| && Sound(a, WindowAt(st.scraps, st.pos)) && a.Rewrite?
    ensures 1 <= a.k && st.pos + a.at + a.k <= |st.scraps| && InRange(a.items, |st.scraps|, st.pos)
    ensures Retagged(st.mem, m) && m.Frozen() && Recategorised(st.scraps, scraps) && Ready(State(scraps, st.pos, m))
    ensures a.reserve < 0 ==> m == st.mem && scraps == st.scraps
    ensures m.Count() == st.mem.Count() && |scraps| == |st.scraps|
    ensures Built(st, a) == (m, scraps, pen) && pen == AppendFrom(BLANK, a.items, 0, scraps, st.pos)
    ensures Apply(st, a)
         == State(Replace(scraps, st.pos + a.at, a.k, Scrap(a.cat, pen.init, pen.cur, m.Count())), Move(st.pos, a.d),
                  m.Append(pen.out))
  {
    hide Sound, MakeReserved, AppendFrom, InRange, Similar, Replace;
    ActionFits(st, a);
    ReserveKeeps(st, a.reserve);
    m, scraps, pen := Built(st, a).0, Built(st, a).1, Built(st, a).2;
  }

  /** The scraps after a rewriting production: one new scrap, the others as they were. */
  lemma AppliedScraps(st: State, a: Action)
    requires Ready(st) && st.pos < |st.scraps| && Sound(a, WindowAt(st.scraps, st.pos)) && a.Rewrite?
    ensures var st', j, pen := Apply(st, a), st.pos + a.at, Built(st, a).2;
      && 1 <= a.k && j + a.k <= |st.scraps| && |st'.scraps| == |st.scraps| - a.k + 1
      && st'.scraps[j] == Scrap(a.cat, pen.init, pen.cur, st.mem.Count())
      && (forall i :: 0 <= i < j ==> Similar(st.scraps[i], st'.scraps[i]))
      && (forall i :: j < i < |st'.scraps| ==> Similar(st.scraps[i + a.k - 1], st'.scraps[i]))
      && (a.reserve < 0 ==> st'.scraps == Replace(st.scraps, j, a.k, st'.scraps[j]))
  {
    hide Sound, Apply, Built, AppendFrom, InRange, Recategorised, Similar, Ready, Retagged;
    var m, scraps, pen := AppliedForm(st, a);
    ReplacedScraps(st.scraps, scraps, st.pos + a.at, a.k, Scrap(a.cat, pen.init, pen.cur, m.Count()));
  }

  lemma ReplacedScraps(before: seq<Scrap>, scraps: seq<Scrap>, j: nat, k: nat, s: Scrap)
    requires Recategorised(before, scraps) && 1 <= k && j + k <= |scraps|
    ensures var after := Replace(scraps, j, k, s);
      && |after| == |scraps| - k + 1 && after[j] == s
      && (forall i :: 0 <= i < j ==> Similar(before[i], after[i]))
      && (forall i :: j < i < |after| ==> Similar(before[i + k - 1], after[i]))
  {
    var after := Replace(scraps, j, k, s);
    forall i | j < i < |after| ensures Similar(before[i + k - 1], after[i]) {
      assert after[i] == scraps[i + k - 1];
    }
  }

  function Step(st: State, forceLines: bool): State
    requires Ready(st) && st.pos < |st.scraps|
  {
    WindowPadded(st);
    Apply(st, Match(WindowAt(st.scraps, st.pos), forceLines))
  }

  // ----- Termination -----

  ghost function RankSum(scraps: seq<Scrap>): nat {
    if scraps == [] then 0 else Rank(scraps[0].cat) + RankSum(scraps[1..])
  }

  lemma {:induction false} RankSumConcat(a: seq<Scrap>, b: seq<Scrap>)
    ensures RankSum(a + b) == RankSum(a) + RankSum(b)
  {
    if a == [] {
      assert a + b == b;
    } else {
      RankSumConcat(a[1..], b);
      assert (a + b)[1..] == a[1..] + b;
    }
  }

  lemma RankSumReplace(scraps: seq<Scrap>, j: nat, s: Scrap)
    requires j < |scraps|
    ensures RankSum(scraps[j := s]) == RankSum(scraps) - Rank(scraps[j].cat) + Rank(s.cat)
  {
    var a, b := scraps[..j], scraps[j + 1..];
    assert scraps == a + [scraps[j]] + b;
    assert scraps[j := s] == a + [s] + b;
    RankSumConcat(a + [scraps[j]], b);
    RankSumConcat(a, [scraps[j]]);
    RankSumConcat(a + [s], b);
    RankSumConcat(a, [s]);
    assert RankSum([s]) == Rank(s.cat) + RankSum([s][1..]);
    assert RankSum([scraps[j]]) == Rank(scraps[j].cat) + RankSum([scraps[j]][1..]);
  }

  /** Lexicographically smaller: scraps left, then their ranks, then scraps right of pp. */
  ghost predicate Smaller(a: State, b: State) {
    || |a.scraps| < |b.scraps|
    || (|a.scraps| == |b.scraps| &&
          (|| RankSum(a.scraps) < RankSum(b.scraps)
           || (RankSum(a.scraps) == RankSum(b.scraps) && |a.scraps| - a.pos < |b.scraps| - b.pos)))
  }

  lemma ReplaceReady(scraps: seq<Scrap>, pos: nat, m: Memory, out: seq<Token>, j: nat, k: nat, s: Scrap, d: int)
    requires Ready(State(scraps, pos, m)) && 1 <= k && j + k <= |scraps|
    requires s.cat != Zero && s.trans == m.Count() && pos <= j && d <= j - pos + 1
    ensures Ready(State(Replace(scraps, j, k, s), Move(pos, d), m.Append(out)))
  {
    AppendTexts(m, out);
  }

  lemma RelabelProgress(st: State, j: nat, c: Cat, d: int)
    requires Ready(st) && st.pos <= j < |st.scraps| && c != Zero && Rank(c) < Rank(st.scraps[j].cat)
    requires d <= j - st.pos
    ensures var st' := State(st.scraps[j := st.scraps[j].(cat := c)], Move(st.pos, d), st.mem);
      Ready(st') && Smaller(st', st)
  {
    RankSumReplace(st.scraps, j, st.scraps[j].(cat := c));
  }

  lemma ReplaceSmaller(st: State, scraps: seq<Scrap>, j: nat, k: nat, s: Scrap, pos: nat, m: Memory)
    requires Recategorised(st.scraps, scraps) && 1 <= k && j + k <= |scraps|
    requires k == 1 ==> scraps == st.scraps && Rank(s.cat) < Rank(st.scraps[j].cat)
    ensures Smaller(State(Replace(scraps, j, k, s), pos, m), st)
  {
    if k == 1 {
      assert Replace(scraps, j, 1, s) == st.scraps[j := s];
      RankSumReplace(st.scraps, j, s);
    }
  }

  lemma ApplyProgress(st: State, a: Action)
    requires Ready(st) && st.pos < |st.scraps| && Sound(a, WindowAt(st.scraps, st.pos))
    ensures Ready(Apply(st, a)) && Smaller(Apply(st, a), st)
  {
    if a.Rewrite? {
      RewriteProgress(st, a);
    } else {
      hide Covers, Rank, RankSum, Built;
      ActionFits(st, a);
      if a.Relabel? { RelabelProgress(st, st.pos + a.at, a.cat, a.d); }
    }
  }

  lemma RewriteProgress(st: State, a: Action)
    requires Ready(st) && st.pos < |st.scraps| && Sound(a, WindowAt(st.scraps, st.pos)) && a.Rewrite?
    ensures Ready(Apply(st, a)) && Smaller(Apply(st, a), st)
  {
    hide Covers, Rank, RankSum, Apply, Built, AppendFrom, InRange, Recategorised, Retagged, Ready, Replace, Smaller, IsBracket,
      Move;
    var m, scraps, pen := AppliedForm(st, a);
    var j, s := st.pos + a.at, Scrap(a.cat, pen.init, pen.cur, m.Count());
    ReplaceReady(scraps, st.pos, m, pen.out, j, a.k, s, a.d);
    ReplaceSmaller(st, scraps, j, a.k, s, Move(st.pos, a.d), m.Append(pen.out));
  }

  /** Every pass keeps the state ready and comes closer to the end. */
  lemma StepProgress(st: State, forceLines: bool)
    requires Ready(st) && st.pos < |st.scraps|
    ensures Ready(Step(st, forceLines)) && Smaller(Step(st, forceLines), st)
  {
    WindowPadded(st);
    ApplyProgress(st, Match(WindowAt(st.scraps, st.pos), forceLines));
  }

  /** The whole reduction; its termination is part of the definition. */
  ghost function Reduced(st: State, forceLines: bool): State
    requires Ready(st)
    decreases |st.scraps|, RankSum(st.scraps), |st.scraps| - st.pos
  {
    if st.pos == |st.scraps| then st
    else
      StepProgress(st, forceLines);
      Reduced(Step(st, forceLines), forceLines)
  }
}
