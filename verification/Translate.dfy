/**
 `translate` as it is written: the scraps live in one array, the part before lo_ptr
 already looked at and the part from hi_ptr on still untouched, and both are updated in
 place (cweb/cweave.c:2003-2191, 2265-2978).
 */
module Translate {
  import opened ScrapGrammar
  import opened ScrapText
  import opened ScrapRewrite
  import opened ScrapInvariants
  import opened ScrapContent

  class Weaver {
    const scrapInfo: array<Scrap>
    const forceLines: bool
    var toks: seq<Token>
    var starts: seq<nat>
    var scrapBase: int
    var scrapPtr: int
    var loPtr: int
    var hiPtr: int
    var pp: int
    var initMath: Math
    var curMath: Math

    /** The two regions, with room for the three categories read past the end. */
    ghost predicate Regions()
      reads this
    {
      && 1 <= scrapBase <= loPtr + 1
      && loPtr < hiPtr <= scrapPtr + 1
      && scrapPtr + 5 <= scrapInfo.Length
    }

    /** The one list that the two regions denote. */
    ghost function Scraps(): seq<Scrap>
      requires Regions()
      reads this, scrapInfo
    {
      Denoted(scrapInfo[..], scrapBase, loPtr, hiPtr, scrapPtr)
    }

    ghost function Mem(): Memory
      reads this
    {
      Memory(toks, starts)
    }

    /** pp is inside the part already looked at, or just after it. */
    ghost predicate Placed()
      reads this
    {
      Regions() && scrapBase <= pp <= loPtr + 1
    }

    ghost function Current(): State
      requires Placed()
      reads this, scrapInfo
    {
      State(Scraps(), pp - scrapBase, Mem())
    }

    /** A text is being appended to the frozen memory m. */
    ghost predicate Writing(m: Memory, pen: Pen)
      reads this
    {
      m.Frozen() && toks == m.toks + pen.out && starts == m.starts && initMath == pen.init && curMath == pen.cur
    }

    method App(t: Token)
      modifies this`toks
      ensures toks == old(toks) + [t]
    {
      toks := toks + [t];
    }

    method AppStr(s: seq<Token>)
      modifies this`toks
      ensures toks == old(toks) + s
    {
      var i := 0;
      while i < |s|
        invariant 0 <= i <= |s| && toks == old(toks) + s[..i]
      {
        App(s[i]);
        i := i + 1;
      }
    }

    method BigApp(mark: Mark, ghost m: Memory, ghost pen: Pen)
      requires Writing(m, pen)
      modifies this`toks, this`initMath, this`curMath
      ensures Writing(m, ScrapText.BigApp(pen, mark))
    {
      if mark == Ch(' ') || mark in {BigCancel, Cancel, Indent, Outdent, Opt, Backup, BreakSpace, Force, BigForce} {
        if curMath == Maybe { initMath := No; }
        else if curMath == Yes { AppStr(CLOSE_MATH); }
        curMath := No;
      } else {
        if curMath == Maybe { initMath := Yes; }
        else if curMath == No { AppStr(OPEN_MATH); }
        curMath := Yes;
      }
      App(Sym(mark));
    }

    method BigApp1(j: nat, ghost m: Memory, ghost pen: Pen)
      requires Writing(m, pen) && j < scrapInfo.Length
      modifies this`toks, this`initMath, this`curMath
      ensures Writing(m, ScrapText.BigApp1(pen, scrapInfo[j]))
    {
      match scrapInfo[j].left {
        case No =>
          if curMath == Maybe { initMath := No; }
          else if curMath == Yes { AppStr(CLOSE_MATH); }
          curMath := scrapInfo[j].right;
        case Yes =>
          if curMath == Maybe { initMath := Yes; }
          else if curMath == No { AppStr(OPEN_MATH); }
          curMath := scrapInfo[j].right;
        case Maybe =>
      }
      App(Ref(scrapInfo[j].trans));
    }

    /** The categories stored at pp..pp+3. */
    function Visible(): Window
      requires 0 <= pp && pp + 3 < scrapInfo.Length
      reads this, scrapInfo
    {
      Window(scrapInfo[pp].cat, scrapInfo[pp + 1].cat, scrapInfo[pp + 2].cat, scrapInfo[pp + 3].cat)
    }

    /** Moves scraps across the gap until pp+3 is reached or none are left. */
    method Fill()
      requires Placed()
      modifies this`loPtr, this`hiPtr, scrapInfo
      ensures Placed() && Scraps() == old(Scraps())
      ensures loPtr < pp + 3 ==> hiPtr == scrapPtr + 1
    {
      while loPtr < pp + 3 && hiPtr <= scrapPtr
        invariant Placed() && Scraps() == old(Scraps())
        decreases scrapPtr + 1 - hiPtr
      {
        MoveAcross(scrapInfo[..], scrapBase, loPtr, hiPtr, scrapPtr);
        ghost var moved := scrapInfo[..][loPtr + 1 := scrapInfo[hiPtr]];
        loPtr := loPtr + 1;
        scrapInfo[loPtr] := scrapInfo[hiPtr];
        hiPtr := hiPtr + 1;
        assert scrapInfo[..] == moved;
      }
    }

    /** Zero categories in the places up to pp+3 that hold no scrap. */
    method Pad()
      requires Placed()
      modifies scrapInfo
      ensures forall x :: 0 <= x < scrapInfo.Length && !(loPtr < x <= pp + 3) ==> scrapInfo[x] == old(scrapInfo[x])
      ensures forall x :: loPtr < x <= pp + 3 ==> scrapInfo[x].cat == Zero
    {
      var i := loPtr + 1;
      while i <= pp + 3
        invariant loPtr + 1 <= i && (loPtr + 1 < i ==> i <= pp + 4)
        invariant forall x :: 0 <= x < scrapInfo.Length && !(loPtr < x < i) ==> scrapInfo[x] == old(scrapInfo[x])
        invariant forall x :: loPtr < x < i ==> scrapInfo[x].cat == Zero
      {
        scrapInfo[i] := scrapInfo[i].(cat := Zero);
        i := i + 1;
      }
    }

    /** Makes the entries pp..pp+3 good (cweb/cweave.c:2269-2279). */
    method Gather()
      requires Placed()
      modifies this`loPtr, this`hiPtr, scrapInfo
      ensures Placed() && Scraps() == old(Scraps())
      ensures loPtr < pp + 3 ==> hiPtr == scrapPtr + 1
      ensures pp + 3 < scrapInfo.Length
      ensures Visible() == WindowAt(Scraps(), pp - scrapBase)
    {
      hide Denoted, WindowAt;
      Fill();
      ghost var before := scrapInfo[..];
      Pad();
      PadDenotes(before, scrapInfo[..], scrapBase, loPtr, hiPtr, scrapPtr, pp);
    }

    /** `pp+d`, but not below scrap_base; the loop adds the one that is taken off here. */
    method MoveBack(d: int)
      modifies this`pp
      ensures pp + 1 == if old(pp) + d >= scrapBase then old(pp) + d else scrapBase
    {
      if pp + d >= scrapBase { pp := pp + d; } else { pp := scrapBase; }
      pp := pp - 1;
    }

    /** Closes the gap left by a reduced run. */
    method ShiftLeft(j: int, k: int)
      requires Regions() && scrapBase <= j && 1 <= k && j + k <= loPtr + 1
      modifies this`loPtr, scrapInfo
      ensures loPtr == old(loPtr) - k + 1
      ensures Shifted(old(scrapInfo[..]), scrapInfo[..], old(loPtr), j, k)
    {
      if k > 1 {
        ghost var before := scrapInfo[..];
        var i, i1 := j + k, j + 1;
        while i <= loPtr
          modifies scrapInfo
          invariant i == i1 + k - 1 && j + 1 <= i1 && i <= loPtr + 1
          invariant forall x :: 0 <= x <= j ==> scrapInfo[x] == before[x]
          invariant forall x :: j < x < i1 ==> scrapInfo[x] == before[x + k - 1]
          invariant forall x :: i1 <= x < scrapInfo.Length ==> scrapInfo[x] == before[x]
        {
          scrapInfo[i1] := scrapInfo[i];
          i, i1 := i + 1, i1 + 1;
        }
        loPtr := loPtr - k + 1;
      }
    }

    method Reduce(j: int, k: int, c: Cat, d: int)
      requires Regions() && scrapBase <= j && 1 <= k && j + k <= loPtr + 1 && 1 <= |starts|
      modifies this`starts, this`loPtr, this`pp, scrapInfo
      ensures Regions() && loPtr == old(loPtr) - k + 1
      ensures starts == old(starts) + [|toks|]
      ensures Scraps() == Replace(old(Scraps()), j - scrapBase, k, Scrap(c, initMath, curMath, |old(starts)| - 1))
      ensures pp + 1 == if old(pp) + d >= scrapBase then old(pp) + d else scrapBase
    {
      hide Shifted, Denoted, Replace;
      ghost var before := scrapInfo[..];
      var s := Scrap(c, initMath, curMath, |starts| - 1);
      scrapInfo[j] := s;
      starts := starts + [|toks|];
      assert scrapInfo[..] == before[j := s];
      ShiftLeft(j, k);
      ReplaceInPlace(before, scrapInfo[..], scrapBase, old(loPtr), hiPtr, scrapPtr, j, k, s);
      MoveBack(d);
    }

    /** The appends of a production, one after another. */
    method AppendItems(items: seq<Item>, ghost m: Memory)
      requires Placed() && Writing(m, BLANK) && InRange(items, loPtr + 1 - scrapBase, pp - scrapBase)
      modifies this`toks, this`initMath, this`curMath
      ensures Writing(m, AppendFrom(BLANK, items, 0, Scraps(), pp - scrapBase))
    {
      ghost var pen := BLANK;
      ghost var scraps, pos := Scraps(), pp - scrapBase;
      assert InRange(items, |scraps|, pos);
      var i := 0;
      while i < |items|
        invariant 0 <= i <= |items| && Writing(m, pen)
        invariant AppendFrom(pen, items, i, scraps, pos) == AppendFrom(BLANK, items, 0, scraps, pos)
      {
        match items[i] {
          case Whole(j) =>
            assert scrapInfo[pp + j] == scraps[pos + j];
            BigApp1(pp + j, m, pen);
          case Big(mark) => BigApp(mark, m, pen);
          case Raw(mark) => App(Sym(mark));
          case Angle(mark) =>
            initMath, curMath := Yes, Yes;
            App(Sym(mark));
        }
        pen := AppendItem(pen, items[i], scraps, pos);
        i := i + 1;
      }
    }

    /** The scrap at array index q is element i of the list. */
    ghost predicate IsAt(q: int, i: int)
      requires Regions()
      reads this
    {
      if q <= loPtr then scrapBase <= q && i == q - scrapBase
      else hiPtr <= q && i == q - hiPtr + loPtr + 1 - scrapBase
    }

    /** Overwrites one scrap, wherever it is. */
    method SetScrap(q: int, s: Scrap, ghost i: int)
      requires Regions() && q <= scrapPtr && IsAt(q, i)
      modifies scrapInfo
      ensures 0 <= i < |Scraps()| == |old(Scraps())| && Scraps() == old(Scraps())[i := s]
    {
      UpdateInPlace(scrapInfo[..], scrapBase, loPtr, hiPtr, scrapPtr, q, s);
      ghost var updated := scrapInfo[..][q := s];
      scrapInfo[q] := s;
      assert scrapInfo[..] == updated;
    }

    /** The body of the loop of `make_reserved`. */
    method ReserveOne(q: int, v: Token, ghost i: int)
      requires Regions() && Mem().Frozen() && q <= scrapPtr && IsAt(q, i) && (v.Ident? || v.Res?)
      requires forall k :: 0 <= k < |Scraps()| ==> Scraps()[k].trans < Mem().Count()
      modifies this`toks, scrapInfo
      ensures 0 <= i < |old(Scraps())|
      ensures (Mem(), Scraps()) == ReserveAt(old(Mem()), old(Scraps()), i, v)
    {
      ghost var list := Scraps();
      assert scrapInfo[q] == list[i];
      var first := starts[scrapInfo[q].trans];
      if scrapInfo[q].cat == Exp && first < |toks| && toks[first] == v {
        SetScrap(q, scrapInfo[q].(cat := RawInt), i);
        toks := toks[first := Res(v.n)];
      }
    }

    /** The loop of `make_reserved`, walking over the gap. */
    method ReserveAll(p: int, v: Token)
      requires Regions() && Mem().Frozen() && scrapBase <= p <= loPtr && (v.Ident? || v.Res?)
      requires forall i :: 0 <= i < |Scraps()| ==> Scraps()[i].trans < Mem().Count()
      modifies this`toks, scrapInfo
      ensures (Mem(), Scraps()) == ReserveFrom(old(Mem()), old(Scraps()), p - scrapBase, v)
    {
      hide ReserveFrom, ReserveAt, Memory.Frozen, Denoted;
      var q := p;
      ghost var i, m, list := p - scrapBase, Mem(), Scraps();
      while q <= scrapPtr
        invariant m == Mem() && list == Scraps() && m.Frozen()
        invariant q <= scrapPtr + 1 && IsAt(q, i) && i <= |list|
        invariant forall k :: 0 <= k < |list| ==> list[k].trans < m.Count()
        invariant ReserveFrom(m, list, i, v) == ReserveFrom(old(Mem()), old(Scraps()), p - scrapBase, v)
        decreases scrapPtr + 1 - q
      {
        ReserveAtSame(m, list, i, v);
        ReserveOne(q, v, i);
        m, list := Mem(), Scraps();
        q := if q == loPtr then hiPtr else q + 1;
        i := i + 1;
      }
      ReserveNone(m, list, v);
    }

    /** `make_reserved` (cweb/cweave.c:2068-2087). */
    method MakeReserved(p: int)
      requires Regions() && Mem().Frozen() && scrapBase <= p <= loPtr
      requires forall i :: 0 <= i < |Scraps()| ==> Scraps()[i].trans < Mem().Count()
      modifies this`toks, scrapInfo
      ensures (Mem(), Scraps()) == ScrapRewrite.MakeReserved(old(Mem()), old(Scraps()), p - scrapBase)
    {
      hide ReserveFrom;
      assert scrapInfo[p] == Scraps()[p - scrapBase];
      var loc := FirstIdent(Memory(toks, starts), scrapInfo[p].trans);
      if loc != -1 {
        var v := toks[loc];
        ReserveSame(Mem(), Scraps(), p - scrapBase, v);
        ReserveAll(p, v);
        toks := toks[loc := Res(v.n)];
      }
    }

    /** A production that only changes a category. */
    method ProduceRelabel(at: nat, c: Cat, d: int)
      requires Placed() && pp + at <= loPtr && d <= loPtr + 1 - pp
      modifies this`pp, scrapInfo
      ensures Regions() && scrapBase <= pp + 1 <= loPtr + 1
      ensures pp + 1 - scrapBase == Move(old(pp) - scrapBase, d)
      ensures |Scraps()| == |old(Scraps())|
      ensures var j := old(pp) - scrapBase + at; Scraps() == old(Scraps())[j := old(Scraps())[j].(cat := c)]
    {
      assert scrapInfo[pp + at] == Scraps()[pp + at - scrapBase];
      SetScrap(pp + at, scrapInfo[pp + at].(cat := c), pp + at - scrapBase);
      MoveBack(d);
    }

    /** A production that builds a text. */
    method ProduceRewrite(at: nat, k: int, c: Cat, d: int, items: seq<Item>, reserve: int)
      requires Placed() && Ready(Current())
      requires 1 <= k && pp + at + k <= loPtr + 1 && d <= loPtr - k + 2 - pp
      requires InRange(items, loPtr + 1 - scrapBase, pp - scrapBase)
      requires reserve >= 0 ==> pp + reserve <= loPtr
      modifies this`toks, this`starts, this`loPtr, this`pp, this`initMath, this`curMath, scrapInfo
      ensures Regions() && scrapBase <= pp + 1 <= loPtr + 1
      ensures var (m, scraps) := Reserve(old(Current()), reserve);
        && |scraps| == |old(Scraps())| && m.Frozen() && InRange(items, |scraps|, old(pp) - scrapBase)
        && var pen := AppendFrom(BLANK, items, 0, scraps, old(pp) - scrapBase);
           State(Scraps(), pp + 1 - scrapBase, Mem())
           == State(Replace(scraps, old(pp) - scrapBase + at, k, Scrap(c, pen.init, pen.cur, m.Count())),
                    Move(old(pp) - scrapBase, d), m.Append(pen.out))
    {
      hide ScrapRewrite.MakeReserved, AppendFrom, Replace, Denoted;
      ReserveKeeps(Current(), reserve);
      if reserve >= 0 { MakeReserved(pp + reserve); }
      ghost var m := Mem();
      initMath, curMath := Maybe, Maybe;
      AppendItems(items, m);
      Reduce(pp + at, k, c, d);
    }

    /** One production, from the match to the new place of pp (which the loop adds one to). */
    method Produce(a: Action)
      requires Placed() && pp <= loPtr && Ready(Current())
      requires loPtr < pp + 3 ==> hiPtr == scrapPtr + 1
      requires Sound(a, WindowAt(Scraps(), pp - scrapBase))
      modifies this`toks, this`starts, this`loPtr, this`pp, this`initMath, this`curMath, scrapInfo
      ensures Regions() && scrapBase <= pp + 1 <= loPtr + 1
      ensures State(Scraps(), pp + 1 - scrapBase, Mem()) == Apply(old(Current()), a)
    {
      hide Sound, Apply, Reserve, AppendFrom, Replace, Denoted, InRange, WindowAt, Ready;
      ghost var st := Current();
      ActionFits(st, a);
      match a {
        case NoMatch =>
          ApplyIs(st, a);
        case Relabel(_, at, c, d) =>
          ApplyIs(st, a);
          RelabelFits(st, a, loPtr - scrapBase);
          ProduceRelabel(at, c, d);
        case Rewrite(_, at, k, c, d, items, reserve) =>
          RewriteFits(st, a, loPtr - scrapBase);
          RewriteIs(st, a);
          ProduceRewrite(at, k, c, d, items, reserve);
      }
    }

    /** The scraps `scrap_base..scrap_ptr` are ready to be translated. */
    ghost predicate Startable()
      reads this, scrapInfo
    {
      && 1 <= scrapBase <= scrapPtr + 1 && scrapPtr + 5 <= scrapInfo.Length
      && Ready(Start())
    }

    ghost function Start(): State
      requires 0 <= scrapBase <= scrapPtr + 1 <= scrapInfo.Length
      reads this, scrapInfo
    {
      State(scrapInfo[scrapBase..scrapPtr + 1], 0, Mem())
    }

    /** One pass of the loop; false when pp has run off the end. */
    method Pass() returns (more: bool)
      requires Placed() && Ready(Current())
      modifies this`toks, this`starts, this`loPtr, this`hiPtr, this`pp, this`initMath, this`curMath, scrapInfo
      ensures Placed()
      ensures !more ==> Current() == old(Current()) && old(Current()).pos == |old(Current()).scraps| && hiPtr == scrapPtr + 1
      ensures more ==> old(Current()).pos < |old(Current()).scraps| && Current() == Step(old(Current()), forceLines)
    {
      hide Match, MatchCategory, Sound, Apply, Denoted;
      ghost var st := Current();
      Gather();
      if pp > loPtr { return false; }
      WindowPadded(st);
      Produce(Match(Visible(), forceLines));
      pp := pp + 1;
      return true;
    }

    /** The reduction loop (cweb/cweave.c:2265-2942). */
    method ReduceAll()
      requires Startable()
      modifies this`toks, this`starts, this`loPtr, this`hiPtr, this`pp, this`initMath, this`curMath, scrapInfo
      ensures Placed() && hiPtr == scrapPtr + 1
      ensures Ready(Current()) && State(Scraps(), |Scraps()|, Mem()) == Reduced(old(Start()), forceLines)
    {
      hide Step, Ready, Denoted;
      pp := scrapBase;
      loPtr := pp - 1;
      hiPtr := pp;
      AllUntouched(scrapInfo[..], scrapBase, scrapPtr);
      ghost var st := Current();
      assert st == old(Start());
      var more := true;
      while more
        invariant Placed() && st == Current() && Ready(st)
        invariant !more ==> st.pos == |st.scraps| && hiPtr == scrapPtr + 1
        invariant Reduced(st, forceLines) == Reduced(old(Start()), forceLines)
        decreases |st.scraps|, RankSum(st.scraps), |st.scraps| - st.pos, more
      {
        more := Pass();
        if more {
          StepProgress(st, forceLines);
          st := Current();
        }
      }
    }

    /** One scrap of the final text. */
    method AppFinished(j: int)
      requires 0 <= scrapBase <= j < scrapInfo.Length
      modifies this`toks
      ensures toks == old(toks)
        + (if j != scrapBase then [Sym(Ch(' '))] else [])
        + (if scrapInfo[j].left == Yes then [Sym(Ch('$'))] else [])
        + [Ref(scrapInfo[j].trans)]
        + (if scrapInfo[j].right == Yes then [Sym(Ch('$'))] else [])
    {
      if j != scrapBase { App(Sym(Ch(' '))); }
      if scrapInfo[j].left == Yes { App(Sym(Ch('$'))); }
      App(Ref(scrapInfo[j].trans));
      if scrapInfo[j].right == Yes { App(Sym(Ch('$'))); }
    }

    /** `translate`: the text of the reduced scraps, each outside math again. */
    method Translate() returns (t: nat)
      requires Startable()
      modifies this`toks, this`starts, this`loPtr, this`hiPtr, this`pp, this`initMath, this`curMath, scrapInfo
      ensures var end := Reduced(old(Start()), forceLines);
        t == end.mem.Count() && Mem() == end.mem.Append(Finish(end.scraps, |end.scraps|))
    {
      hide Reduced, Denoted, Memory.Append, Finish;
      ReduceAll();
      OneRegion(scrapInfo[..], scrapBase, loPtr, scrapPtr);
      t := JoinAll();
    }

    /** The text of the scraps that are left, which all are in one region. */
    method JoinAll() returns (t: nat)
      requires Regions() && Mem().Frozen() && Scraps() == scrapInfo[scrapBase..loPtr + 1]
      modifies this`toks, this`starts
      ensures t == old(Mem()).Count() && Mem() == old(Mem()).Append(Finish(old(Scraps()), |old(Scraps())|))
    {
      hide Denoted, Memory.Append, Finish;
      ghost var m, scraps := Mem(), Scraps();
      assert m.toks + [] == m.toks;
      NoneFinished(scraps);
      var j := scrapBase;
      while j <= loPtr
        invariant scrapBase <= j <= loPtr + 1 && scraps == Scraps()
        invariant toks == m.toks + Finish(scraps, j - scrapBase) && starts == m.starts
        modifies this`toks
      {
        assert scrapInfo[j] == scraps[j - scrapBase];
        FinishStep(m.toks, scraps, j - scrapBase);
        AppFinished(j);
        j := j + 1;
      }
      starts := starts + [|toks|];
      t := |starts| - 2;
      FinishAppend(m, Finish(scraps, |scraps|));
    }
  }

  lemma NoneFinished(scraps: seq<Scrap>)
    ensures Finish(scraps, 0) == []
  {
  }

  lemma FinishStep(toks: seq<Token>, scraps: seq<Scrap>, j: nat)
    requires j < |scraps|
    ensures toks + Finish(scraps, j + 1)
         == toks + Finish(scraps, j)
          + (if j > 0 then [Sym(Ch(' '))] else [])
          + (if scraps[j].left == Yes then [Sym(Ch('$'))] else [])
          + [Ref(scraps[j].trans)]
          + (if scraps[j].right == Yes then [Sym(Ch('$'))] else [])
  {
  }

  lemma FinishAppend(m: Memory, out: seq<Token>)
    ensures m.Append(out) == Memory(m.toks + out, m.starts + [|m.toks + out|])
  {
  }

  /** At the end nothing is left in the untouched region. */
  lemma OneRegion(a: seq<Scrap>, base: int, lo: int, last: int)
    requires 0 <= base <= lo + 1 <= last + 1 <= |a|
    ensures Denoted(a, base, lo, last + 1, last) == a[base..lo + 1]
  {
  }

  /** Before the loop everything is in the untouched region. */
  lemma AllUntouched(a: seq<Scrap>, base: int, last: int)
    requires 0 <= base <= last + 1 <= |a|
    ensures Denoted(a, base, base - 1, base, last) == a[base..last + 1]
  {
  }

  /**
   What the text returned by `translate` is worth: it begins and ends outside math with
   everything in between in its proper mode, and it refers only to lower-numbered texts. It
   holds a leaf for each scrap if and only if no bracket swallowed some, and then all of them
   in order; and none does if no insert was typed beside a bracket.
   */
  lemma TranslationIsSound(tag: seq<Math>, orig: seq<Cat>, st: State, forceLines: bool)
    requires Fresh(tag, st) && Typed(orig, st)
    ensures FinalTextSound(tag, orig, st, Reduced(st, forceLines), KeepsAll(st, forceLines, st.mem.Count()))
  {
    hide Reduced, FinalTextSound, Typed, After, IsRun, LossFree, KeepsAll;
    var run := ReducedIsRun(st, forceLines);
    TableKeepsAll(st, run, forceLines, st.mem.Count());
    FinishedIsSound(tag, orig, st, run);
  }

  lemma FinishedIsSound(tag: seq<Math>, orig: seq<Cat>, st: State, run: seq<Action>)
    requires Fresh(tag, st) && Typed(orig, st) && IsRun(st, run)
    ensures FinalTextSound(tag, orig, st, After(st, run), LossFree(st, run, st.mem.Count()))
  {
    hide Exec, Content, FlatText, Bracketed, Leaves, After, IsRun, LossFree, BracketsApart;
    var end := After(st, run);
    MathBalance(tag, st, run);
    LeavesConserved(orig, st, run);
    AppendTexts(end.mem, Finish(end.scraps, |end.scraps|));
    if BracketsApart(st.scraps) {
      TypedTraced(orig, st);
      BracketsApartLossFree(st, run, st.mem.Count());
    }
  }

  /** What a final text is worth, given the scraps it was made from and whether the reduction was loss free. */
  ghost predicate FinalTextSound(tag: seq<Math>, orig: seq<Cat>, st: State, end: State, lossFree: bool)
    requires st.mem.Frozen()
  {
    var base, m := st.mem.Count(), end.mem.Append(Finish(end.scraps, |end.scraps|));
    && end.mem.Frozen() && m.Frozen() && end.mem.Count() < m.Count() && RefsLower(m.Texts())
    && var atoms := FlatText(m.Texts(), base, end.mem.Count());
       && Exec(tag, At(false), atoms) == At(false)
       && |Content(atoms)| <= |st.scraps|
       && (|Content(atoms)| == |st.scraps| <==> lossFree)
       && (lossFree ==> Bracketed(orig, Leaves(st.scraps), Content(atoms)))
       && (BracketsApart(st.scraps) ==> lossFree)
  }

  /** What `make_reserved` does to one scrap. */
  ghost function ReserveAt(m: Memory, scraps: seq<Scrap>, i: nat, v: Token): (Memory, seq<Scrap>)
    requires m.Frozen() && (v.Ident? || v.Res?) && i < |scraps| && scraps[i].trans < m.Count()
  {
    var loc := m.starts[scraps[i].trans];
    if scraps[i].cat == Exp && loc < |m.toks| && m.toks[loc] == v then
      (Retag(m, loc, v.n), scraps[i := scraps[i].(cat := RawInt)])
    else (m, scraps)
  }

  lemma ReserveNone(m: Memory, scraps: seq<Scrap>, v: Token)
    requires m.Frozen() && (v.Ident? || v.Res?)
    requires forall j :: 0 <= j < |scraps| ==> scraps[j].trans < m.Count()
    ensures ReserveFrom(m, scraps, |scraps|, v) == (m, scraps)
  {
  }

  lemma ReserveAtSame(m: Memory, scraps: seq<Scrap>, i: nat, v: Token)
    requires m.Frozen() && (v.Ident? || v.Res?) && i < |scraps|
    requires forall j :: 0 <= j < |scraps| ==> scraps[j].trans < m.Count()
    ensures var (m', scraps') := ReserveAt(m, scraps, i, v);
      && m'.Frozen() && m'.starts == m.starts && |scraps'| == |scraps|
      && (forall j :: 0 <= j < |scraps'| ==> scraps'[j].trans < m'.Count())
      && ReserveFrom(m', scraps', i + 1, v) == ReserveFrom(m, scraps, i, v)
  {
  }

  /** The list denoted by two regions of an array. */
  function Denoted(a: seq<Scrap>, base: int, lo: int, hi: int, last: int): (list: seq<Scrap>)
    requires 0 <= base <= lo + 1 && lo < hi <= last + 1 <= |a|
    ensures |list| == lo + 1 - base + last + 1 - hi
  {
    a[base..lo + 1] + a[hi..last + 1]
  }

  lemma UpdateInPlace(a: seq<Scrap>, base: int, lo: int, hi: int, last: int, q: int, s: Scrap)
    requires 0 <= base <= lo + 1 && lo < hi <= last + 1 <= |a|
    requires base <= q <= lo || hi <= q <= last
    ensures Denoted(a[q := s], base, lo, hi, last)
         == Denoted(a, base, lo, hi, last)[(if q <= lo then q - base else q - hi + lo + 1 - base) := s]
  {
    var b := a[q := s];
    if q <= lo {
      assert b[base..lo + 1] == a[base..lo + 1][q - base := s];
      assert b[hi..last + 1] == a[hi..last + 1];
    } else {
      assert b[base..lo + 1] == a[base..lo + 1];
      assert b[hi..last + 1] == a[hi..last + 1][q - hi := s];
    }
  }

  /** A production that fits the list fits the part before lo_ptr, once pp+3 is gathered. */
  lemma RelabelFits(st: State, a: Action, lo: int)
    requires Ready(st) && st.pos < |st.scraps| && Sound(a, WindowAt(st.scraps, st.pos)) && a.Relabel?
    requires st.pos <= lo < |st.scraps| && (lo < st.pos + 3 ==> lo + 1 == |st.scraps|)
    ensures st.pos + a.at <= lo && st.pos + a.d <= lo + 1
  {
    hide Rank;
    ActionFits(st, a);
  }

  /** The kinds of productions, unfolded. */
  lemma ApplyIs(st: State, a: Action)
    requires Ready(st) && st.pos < |st.scraps| && Sound(a, WindowAt(st.scraps, st.pos)) && !a.Rewrite?
    ensures a.NoMatch? ==> Apply(st, a) == st.(pos := st.pos + 1)
    ensures a.Relabel? ==>
      && st.pos + a.at < |st.scraps|
      && Apply(st, a) == State(st.scraps[st.pos + a.at := st.scraps[st.pos + a.at].(cat := a.cat)], Move(st.pos, a.d), st.mem)
  {
    hide Sound, Built;
    ActionFits(st, a);
  }

  lemma RewriteIs(st: State, a: Action)
    requires Ready(st) && st.pos < |st.scraps| && Sound(a, WindowAt(st.scraps, st.pos)) && a.Rewrite?
    ensures a.reserve >= 0 ==> st.pos + a.reserve < |st.scraps|
    ensures var (m, scraps) := Reserve(st, a.reserve);
      && m.Frozen() && st.pos + a.at + a.k <= |st.scraps| == |scraps| && InRange(a.items, |scraps|, st.pos)
      && var pen := AppendFrom(BLANK, a.items, 0, scraps, st.pos);
         Apply(st, a)
         == State(Replace(scraps, st.pos + a.at, a.k, Scrap(a.cat, pen.init, pen.cur, m.Count())), Move(st.pos, a.d),
                  m.Append(pen.out))
  {
    hide Sound, Apply, AppendFrom, Replace, InRange, Recategorised, Retagged, Reserve;
    ActionFits(st, a);
    var m, scraps, pen := AppliedForm(st, a);
    BuiltReserve(st, a);
  }

  lemma BuiltReserve(st: State, a: Action)
    requires Ready(st) && st.pos < |st.scraps| && Sound(a, WindowAt(st.scraps, st.pos)) && a.Rewrite?
    ensures a.reserve >= 0 ==> st.pos + a.reserve < |st.scraps|
    ensures Reserve(st, a.reserve) == (Built(st, a).0, Built(st, a).1)
  {
    hide Sound, MakeReserved, AppendFrom, InRange;
    ActionFits(st, a);
  }

  lemma RewriteFits(st: State, a: Action, lo: int)
    requires Ready(st) && st.pos < |st.scraps| && Sound(a, WindowAt(st.scraps, st.pos)) && a.Rewrite?
    requires st.pos <= lo < |st.scraps| && (lo < st.pos + 3 ==> lo + 1 == |st.scraps|)
    ensures st.pos + a.at + a.k <= lo + 1 && st.pos + a.d <= lo - a.k + 2
    ensures InRange(a.items, lo + 1, st.pos)
    ensures a.reserve >= 0 ==> st.pos + a.reserve <= lo
  {
    hide Rank;
    ActionFits(st, a);
    if !IsBracket(a, WindowAt(st.scraps, st.pos)) {
      CoversInRange(a.items, 0, a.at, a.k);
    }
  }

  /** Padding does not matter to the list, and the four places now show its window. */
  lemma PadDenotes(before: seq<Scrap>, after: seq<Scrap>, base: int, lo: int, hi: int, last: int, pp: int)
    requires 0 <= base <= lo + 1 && lo < hi <= last + 1 && last + 5 <= |before| == |after| && base <= pp <= lo + 1
    requires lo < pp + 3 ==> hi == last + 1
    requires forall x :: 0 <= x < |after| && !(lo < x <= pp + 3) ==> after[x] == before[x]
    requires forall x :: lo < x <= pp + 3 ==> after[x].cat == Zero
    ensures Denoted(after, base, lo, hi, last) == Denoted(before, base, lo, hi, last)
    ensures var list := Denoted(after, base, lo, hi, last);
      WindowAt(list, pp - base) == Window(after[pp].cat, after[pp + 1].cat, after[pp + 2].cat, after[pp + 3].cat)
  {
    assert after[base..lo + 1] == before[base..lo + 1];
    assert after[hi..last + 1] == before[hi..last + 1];
    var list := Denoted(after, base, lo, hi, last);
    forall x | pp <= x <= pp + 3 ensures CatAt(list, x - base) == after[x].cat {
      if x <= lo { assert list[x - base] == after[x]; }
    }
  }

  lemma MoveAcross(a: seq<Scrap>, base: int, lo: int, hi: int, last: int)
    requires 0 <= base <= lo + 1 && lo < hi <= last < |a|
    ensures Denoted(a[lo + 1 := a[hi]], base, lo + 1, hi + 1, last) == Denoted(a, base, lo, hi, last)
  {
    var b := a[lo + 1 := a[hi]];
    assert b[base..lo + 2] == a[base..lo + 1] + [a[hi]];
    assert b[hi + 1..last + 1] == a[hi + 1..last + 1];
    assert a[hi..last + 1] == [a[hi]] + a[hi + 1..last + 1];
  }

  /** Shifting the scraps right of a reduced run denotes replacing the run in the list. */
  /** The elements from j + k to lo have moved to the place behind j. */
  ghost predicate Shifted(before: seq<Scrap>, after: seq<Scrap>, lo: int, j: int, k: int)
    requires 0 <= j && 1 <= k && j + k <= lo + 1 <= |before|
  {
    && |after| == |before|
    && (forall x :: 0 <= x <= j ==> after[x] == before[x])
    && (forall x :: j < x < lo - k + 2 ==> after[x] == before[x + k - 1])
    && (forall x :: lo < x < |after| ==> after[x] == before[x])
  }

  lemma ReplaceInPlace(before: seq<Scrap>, after: seq<Scrap>, base: int, lo: int, hi: int, last: int,
                       j: int, k: int, s: Scrap)
    requires 0 <= base <= j && 1 <= k && j + k <= lo + 1 && lo < hi <= last + 1 <= |before|
    requires Shifted(before[j := s], after, lo, j, k)
    ensures |after| == |before|
    ensures Denoted(after, base, lo - k + 1, hi, last) == Replace(Denoted(before, base, lo, hi, last), j - base, k, s)
  {
    hide Replace;
    ShiftedParts(before, after, base, lo, hi, last, j, k, s);
    ReplaceFront(before[base..lo + 1], before[hi..last + 1], j - base, k, s);
    assert before[base..lo + 1][..j - base] == before[base..j];
    assert before[base..lo + 1][j - base + k..] == before[j + k..lo + 1];
  }

  lemma ShiftedParts(before: seq<Scrap>, after: seq<Scrap>, base: int, lo: int, hi: int, last: int,
                     j: int, k: int, s: Scrap)
    requires 0 <= base <= j && 1 <= k && j + k <= lo + 1 && lo < hi <= last + 1 <= |before|
    requires Shifted(before[j := s], after, lo, j, k)
    ensures |after| == |before|
    ensures after[base..lo - k + 2] == before[base..j] + [s] + before[j + k..lo + 1]
    ensures after[hi..last + 1] == before[hi..last + 1]
  {
  }

  lemma ReplaceFront(a: seq<Scrap>, b: seq<Scrap>, j: nat, k: nat, s: Scrap)
    requires j + k <= |a|
    ensures Replace(a + b, j, k, s) == a[..j] + [s] + a[j + k..] + b
  {
    assert (a + b)[..j] == a[..j];
    assert (a + b)[j + k..] == a[j + k..] + b;
  }
}
