/**
 CWEAVE's output routine: nested texts are flattened with an explicit stack, and a nested
 `output_C` may discard its texts while an outer output is suspended
 (cweb/cweave.c:3290-3358, 3361-3382).
 */
module WeaveOutput {
  import opened ScrapGrammar
  import opened ScrapText

  datatype Mode = InnerMode | OuterMode

  /** What `get_output` delivers: a token, cur_mode at that moment, and the level it is on. */
  datatype Delivery = Delivery(tok: Token, mode: Mode, level: nat)

  /** One stack entry: tok_field, end_field, mode_field. */
  datatype Level = Level(tok: nat, end: nat, mode: Mode)

  // ----- Recursive flattening -----

  ghost function Expand(texts: seq<seq<Token>>, ts: seq<Token>, mode: Mode, level: nat, bound: nat): seq<Delivery>
    decreases bound, |ts|
  {
    if ts == [] then []
    else ExpandToken(texts, ts[0], mode, level, bound) + Expand(texts, ts[1..], mode, level, bound)
  }

  /** A reference stands for its text, one level up; an inner reference also sets the mode. */
  ghost function ExpandToken(texts: seq<seq<Token>>, tok: Token, mode: Mode, level: nat, bound: nat): seq<Delivery>
    decreases bound, 0
  {
    if tok.Ref? || tok.Inner? then
      if tok.t < bound && tok.t < |texts| then
        Expand(texts, texts[tok.t], if tok.Inner? then InnerMode else mode, level + 1, tok.t)
      else []
    else [Delivery(tok, mode, level)]
  }

  /** How many levels the expansion of a token list needs below its own. */
  ghost function Depth(texts: seq<seq<Token>>, ts: seq<Token>, bound: nat): nat
    decreases bound, |ts|
  {
    if ts == [] then 0
    else
      var d, r := DepthToken(texts, ts[0], bound), Depth(texts, ts[1..], bound);
      if d < r then r else d
  }

  ghost function DepthToken(texts: seq<seq<Token>>, tok: Token, bound: nat): nat
    decreases bound, 0
  {
    if (tok.Ref? || tok.Inner?) && tok.t < bound && tok.t < |texts| then
      1 + Depth(texts, texts[tok.t], tok.t)
    else 0
  }

  /** The number of turns `get_output` takes over a token list, for termination. */
  ghost function Cost(texts: seq<seq<Token>>, ts: seq<Token>, bound: nat): nat
    decreases bound, |ts|
  {
    if ts == [] then 0 else CostToken(texts, ts[0], bound) + Cost(texts, ts[1..], bound)
  }

  ghost function CostToken(texts: seq<seq<Token>>, tok: Token, bound: nat): nat
    decreases bound, 0
  {
    if (tok.Ref? || tok.Inner?) && tok.t < bound && tok.t < |texts| then
      2 + Cost(texts, texts[tok.t], tok.t)
    else 1
  }

  /** References below both bounds make the bound irrelevant, and so is every later text. */
  lemma {:induction false} ExpandFrame(texts: seq<seq<Token>>, texts': seq<seq<Token>>, ts: seq<Token>,
                                       mode: Mode, level: nat, bound: nat, bound': nat)
    requires RefsBelow(ts, bound) && bound <= bound' && bound <= |texts| && bound <= |texts'|
    requires forall u :: 0 <= u < bound ==> texts[u] == texts'[u] && RefsBelow(texts[u], u)
    ensures Expand(texts, ts, mode, level, bound) == Expand(texts', ts, mode, level, bound')
    ensures Depth(texts, ts, bound) == Depth(texts', ts, bound')
    ensures Cost(texts, ts, bound) == Cost(texts', ts, bound')
    decreases bound, |ts|
  {
    if ts != [] {
      var tok := ts[0];
      if tok.Ref? || tok.Inner? {
        ExpandFrame(texts, texts', texts[tok.t], if tok.Inner? then InnerMode else mode, level + 1, tok.t, tok.t);
      }
      ExpandFrame(texts, texts', ts[1..], mode, level, bound, bound');
    }
  }

  // ----- What a stack of levels still has to deliver -----

  ghost function Rest(m: Memory, l: Level): seq<Token> {
    if l.tok < l.end <= |m.toks| then m.toks[l.tok..l.end] else []
  }

  /** A level is used up, or a stretch of the memory whose references are finished texts. */
  ghost predicate ValidLevel(m: Memory, l: Level)
    requires m.Frozen()
  {
    l.tok == l.end || (l.tok < l.end <= |m.toks| && RefsBelow(Rest(m, l), m.Count()))
  }

  ghost predicate ValidLevels(m: Memory, levels: seq<Level>)
    requires m.Frozen()
  {
    RefsLower(m.Texts()) && forall i :: 0 <= i < |levels| ==> ValidLevel(m, levels[i])
  }

  ghost function LevelPending(m: Memory, l: Level, level: nat): seq<Delivery>
    requires m.Frozen()
  {
    Expand(m.Texts(), Rest(m, l), l.mode, level, m.Count())
  }

  /** Top of the stack first; the lowest of these levels is number `floor`. */
  ghost function Pending(m: Memory, levels: seq<Level>, floor: nat): seq<Delivery>
    requires m.Frozen()
  {
    if levels == [] then []
    else LevelPending(m, levels[|levels| - 1], floor + |levels| - 1) + Pending(m, levels[..|levels| - 1], floor)
  }

  ghost function Turns(m: Memory, levels: seq<Level>): nat
    requires m.Frozen()
  {
    if levels == [] then 0
    else 1 + Cost(m.Texts(), Rest(m, levels[|levels| - 1]), m.Count()) + Turns(m, levels[..|levels| - 1])
  }

  /** `room` levels suffice for what the given ones still expand. */
  ghost predicate Fits(m: Memory, levels: seq<Level>, room: int)
    requires m.Frozen()
  {
    forall i :: 0 <= i < |levels| ==> i + 1 + Depth(m.Texts(), Rest(m, levels[i]), m.Count()) <= room
  }

  function TextLevel(m: Memory, t: nat, mode: Mode): Level
    requires m.Frozen() && t < m.Count()
  {
    Level(m.starts[t], m.starts[t + 1], mode)
  }

  /** Pushing the text a reference names delivers what the reference stands for. */
  lemma PushText(m: Memory, t: nat, mode: Mode, level: nat)
    requires m.Frozen() && RefsLower(m.Texts()) && t < m.Count()
    ensures ValidLevel(m, TextLevel(m, t, mode))
    ensures LevelPending(m, TextLevel(m, t, mode), level) == Expand(m.Texts(), m.Texts()[t], mode, level, t)
    ensures Depth(m.Texts(), Rest(m, TextLevel(m, t, mode)), m.Count()) == Depth(m.Texts(), m.Texts()[t], t)
    ensures Cost(m.Texts(), Rest(m, TextLevel(m, t, mode)), m.Count()) == Cost(m.Texts(), m.Texts()[t], t)
  {
    hide Expand, Depth, Cost;
    assert m.starts[t] <= m.starts[t + 1] <= |m.toks|;
    assert Rest(m, TextLevel(m, t, mode)) == m.Texts()[t];
    assert RefsBelow(m.Texts()[t], t);
    ExpandFrame(m.Texts(), m.Texts(), m.Texts()[t], mode, level, t, m.Count());
  }

  /** Reading one token of a level. */
  lemma ReadToken(m: Memory, l: Level, level: nat)
    requires m.Frozen() && ValidLevel(m, l) && l.tok != l.end
    ensures l.tok < l.end <= |m.toks|
    ensures var tok, next := m.toks[l.tok], l.(tok := l.tok + 1);
      && ValidLevel(m, next)
      && (tok.Ref? || tok.Inner? ==> tok.t < m.Count())
      && LevelPending(m, l, level)
         == ExpandToken(m.Texts(), tok, l.mode, level, m.Count()) + LevelPending(m, next, level)
      && Cost(m.Texts(), Rest(m, l), m.Count())
         == CostToken(m.Texts(), tok, m.Count()) + Cost(m.Texts(), Rest(m, next), m.Count())
      && Depth(m.Texts(), Rest(m, l), m.Count())
         == (var d, r := DepthToken(m.Texts(), tok, m.Count()), Depth(m.Texts(), Rest(m, next), m.Count());
             if d < r then r else d)
  {
    var ts, next := Rest(m, l), l.(tok := l.tok + 1);
    assert ts[0] == m.toks[l.tok] && Rest(m, next) == ts[1..];
  }

  lemma SplitTop(m: Memory, below: seq<Level>, top: Level, floor: nat, room: int)
    requires m.Frozen()
    ensures Pending(m, below + [top], floor) == LevelPending(m, top, floor + |below|) + Pending(m, below, floor)
    ensures Turns(m, below + [top]) == 1 + Cost(m.Texts(), Rest(m, top), m.Count()) + Turns(m, below)
    ensures Fits(m, below + [top], room) <==>
      Fits(m, below, room) && |below| + 1 + Depth(m.Texts(), Rest(m, top), m.Count()) <= room
    ensures ValidLevels(m, below + [top]) <==> ValidLevels(m, below) && ValidLevel(m, top)
  {
    hide Expand, Depth, Cost, Rest, ValidLevel;
    var levels := below + [top];
    assert levels[..|levels| - 1] == below;
    assert forall i :: 0 <= i < |below| ==> levels[i] == below[i];
    assert levels[|below|] == top;
  }

  /** Leaving a used-up level changes nothing but the number of turns. */
  lemma PopKeeps(m: Memory, below: seq<Level>, top: Level, floor: nat, room: int)
    requires m.Frozen() && top.tok == top.end && |below| < room
    ensures Pending(m, below, floor) == Pending(m, below + [top], floor)
    ensures Turns(m, below) < Turns(m, below + [top])
    ensures Fits(m, below, room) <==> Fits(m, below + [top], room)
    ensures ValidLevels(m, below + [top]) ==> ValidLevels(m, below)
  {
    SplitTop(m, below, top, floor, room);
  }

  /** Entering the text of a reference; there is no room for it exactly when nothing fits. */
  lemma PushKeeps(m: Memory, below: seq<Level>, top: Level, floor: nat, room: int)
    requires m.Frozen() && ValidLevels(m, below + [top]) && |below| < room
    requires top.tok < top.end <= |m.toks|
    requires var a := m.toks[top.tok]; a.Ref? || a.Inner?
    ensures var a := m.toks[top.tok];
      var next := top.(tok := top.tok + 1);
      && a.t < m.Count()
      && var inside := TextLevel(m, a.t, if a.Inner? then InnerMode else top.mode);
         var levels := below + [next] + [inside];
         && ValidLevels(m, below + [next]) && ValidLevels(m, levels)
         && Pending(m, levels, floor) == Pending(m, below + [top], floor)
         && Turns(m, levels) < Turns(m, below + [top])
         && (Fits(m, levels, room) <==> Fits(m, below + [top], room))
         && (|below| + 1 == room ==> !Fits(m, below + [top], room))
  {
    hide Expand, Depth, Cost, Pending, Turns, Fits, ValidLevels;
    SplitTop(m, below, top, floor, room);
    ReadToken(m, top, floor + |below|);
    var a, next := m.toks[top.tok], top.(tok := top.tok + 1);
    var inside := TextLevel(m, a.t, if a.Inner? then InnerMode else top.mode);
    SplitTop(m, below, next, floor, room);
    ValidRefs(m, below);
    PushText(m, a.t, inside.mode, floor + |below| + 1);
    SplitTop(m, below + [next], inside, floor, room);
  }

  lemma ValidRefs(m: Memory, levels: seq<Level>)
    requires m.Frozen() && ValidLevels(m, levels)
    ensures RefsLower(m.Texts())
  {
  }

  /** Delivering a token that is not a reference. */
  lemma DeliverKeeps(m: Memory, below: seq<Level>, top: Level, floor: nat, room: int)
    requires m.Frozen() && ValidLevels(m, below + [top]) && |below| < room
    requires top.tok < top.end <= |m.toks|
    requires var a := m.toks[top.tok]; !a.Ref? && !a.Inner?
    ensures var next := top.(tok := top.tok + 1);
      && ValidLevels(m, below + [next])
      && [Delivery(m.toks[top.tok], top.mode, floor + |below|)] + Pending(m, below + [next], floor)
         == Pending(m, below + [top], floor)
      && (Fits(m, below + [next], room) <==> Fits(m, below + [top], room))
  {
    hide Expand, Depth, Cost, Pending, Turns, Fits, ValidLevels;
    var next, level := top.(tok := top.tok + 1), floor + |below|;
    SplitTop(m, below, top, floor, room);
    ReadToken(m, top, level);
    SplitTop(m, below, next, floor, room);
    assert ExpandToken(m.Texts(), m.toks[top.tok], top.mode, level, m.Count()) == [Delivery(m.toks[top.tok], top.mode, level)];
  }

  /** A used-up level on top of others changes nothing that is to come. */
  lemma Resumed(m: Memory, upper: seq<Level>, used: Level, floor: nat, room: int)
    requires m.Frozen() && ValidLevels(m, upper) && used.tok == used.end && |upper| < room
    ensures ValidLevels(m, upper + [used])
    ensures Pending(m, upper + [used], floor) == Pending(m, upper, floor)
    ensures Fits(m, upper + [used], room) <==> Fits(m, upper, room)
  {
    hide Pending, Fits, Turns, Depth, Expand;
    SplitTop(m, upper, used, floor, room);
    PopKeeps(m, upper, used, floor, room);
  }

  // ----- Output within output -----

  /**
   The calls of `output_C` that a `make_output` makes while it prints section names, in
   order: after which of its own tokens, the texts that `C_translate` adds and the one it
   returns, and the calls made in turn while that one is printed.
   */
  datatype Calls = NoCalls | Then(at: nat, added: seq<seq<Token>>, p: nat, inner: Calls, rest: Calls)

  const END := Sym(EndTranslation)

  ghost predicate Unended(ds: seq<Delivery>) {
    forall i :: 0 <= i < |ds| ==> ds[i].tok != END
  }

  /** The own tokens of a call that finds sp levels. */
  ghost function OwnOf(texts: seq<seq<Token>>, sp: nat, c: Calls): seq<Delivery>
    requires c.Then? && c.p < |texts + c.added|
  {
    Expand(texts + c.added, (texts + c.added)[c.p], InnerMode, sp + 1, c.p)
  }

  /** The texts while a call prints: the added ones, and the one that refers to the translation. */
  ghost function TextsIn(texts: seq<seq<Token>>, c: Calls): seq<seq<Token>>
    requires c.Then?
  {
    texts + c.added + [[Inner(c.p)] + [END]]
  }

  /** What `C_translate` promises of its texts. */
  ghost predicate CallOk(texts: seq<seq<Token>>, sp: nat, c: Calls)
    requires c.Then?
    decreases c, 0
  {
    && c.p < |texts + c.added| && RefsLower(texts + c.added)
    && Unended(OwnOf(texts, sp, c)) && CallsOk(TextsIn(texts, c), OwnOf(texts, sp, c), 0, 0, c.inner)
  }

  /** The same for all calls still to come: i own tokens are out, and j calls have been made after the last of them. */
  ghost predicate CallsOk(texts: seq<seq<Token>>, own: seq<Delivery>, i: nat, j: nat, calls: Calls)
    requires i <= |own|
    decreases calls, 1 + |own| - i
  {
    if i > 0 && calls.Then? && calls.at == i - 1 then
      CallOk(texts, own[i - 1].level + 1 + j, calls) && CallsOk(texts, own, i, j + 1, calls.rest)
    else i < |own| ==> CallsOk(texts, own, i + 1, 0, calls)
  }

  /** A stack of the given size is high enough for the call. */
  ghost predicate CallFits(texts: seq<seq<Token>>, sp: nat, c: Calls, size: nat)
    requires c.Then? && c.p < |texts + c.added|
    decreases c, 0
  {
    && sp + 2 + Depth(texts + c.added, (texts + c.added)[c.p], c.p) < size
    && CallsFit(TextsIn(texts, c), OwnOf(texts, sp, c), 0, 0, c.inner, size)
  }

  ghost predicate CallsFit(texts: seq<seq<Token>>, own: seq<Delivery>, i: nat, j: nat, calls: Calls, size: nat)
    requires i <= |own|
    decreases calls, 1 + |own| - i
  {
    if i > 0 && calls.Then? && calls.at == i - 1 then
      && calls.p < |texts + calls.added| && CallFits(texts, own[i - 1].level + 1 + j, calls, size)
      && CallsFit(texts, own, i, j + 1, calls.rest, size)
    else i < |own| ==> CallsFit(texts, own, i + 1, 0, calls, size)
  }

  /** Everything that is delivered during a call. */
  ghost function CallOut(texts: seq<seq<Token>>, sp: nat, c: Calls): seq<Delivery>
    requires c.Then? && c.p < |texts + c.added|
    decreases c, 0
  {
    Interleave(TextsIn(texts, c), OwnOf(texts, sp, c), 0, 0, c.inner)
  }

  /** The own tokens from the i-th on, with what the calls deliver in its place. */
  ghost function Interleave(texts: seq<seq<Token>>, own: seq<Delivery>, i: nat, j: nat, calls: Calls): seq<Delivery>
    requires i <= |own|
    decreases calls, 1 + |own| - i
  {
    if i > 0 && calls.Then? && calls.at == i - 1 then
      (if calls.p < |texts + calls.added| then CallOut(texts, own[i - 1].level + 1 + j, calls) else [])
      + Interleave(texts, own, i, j + 1, calls.rest)
    else if i < |own| then [own[i]] + Interleave(texts, own, i + 1, 0, calls)
    else []
  }

  /** One step of all three. */
  lemma InterleaveStep(texts: seq<seq<Token>>, own: seq<Delivery>, i: nat, j: nat, calls: Calls, size: nat)
    requires i <= |own| && CallsOk(texts, own, i, j, calls)
    ensures i > 0 && calls.Then? && calls.at == i - 1 ==>
      var sp := own[i - 1].level + 1 + j;
      && CallOk(texts, sp, calls) && CallsOk(texts, own, i, j + 1, calls.rest) && calls.p < |texts + calls.added|
      && (CallsFit(texts, own, i, j, calls, size) <==>
            CallFits(texts, sp, calls, size) && CallsFit(texts, own, i, j + 1, calls.rest, size))
      && Interleave(texts, own, i, j, calls) == CallOut(texts, sp, calls) + Interleave(texts, own, i, j + 1, calls.rest)
    ensures !(i > 0 && calls.Then? && calls.at == i - 1) && i < |own| ==>
      && CallsOk(texts, own, i + 1, 0, calls)
      && (CallsFit(texts, own, i, j, calls, size) <==> CallsFit(texts, own, i + 1, 0, calls, size))
      && Interleave(texts, own, i, j, calls) == [own[i]] + Interleave(texts, own, i + 1, 0, calls)
    ensures !(i > 0 && calls.Then? && calls.at == i - 1) && i == |own| ==>
      CallsFit(texts, own, i, j, calls, size) && Interleave(texts, own, i, j, calls) == []
  {
    hide CallFits, CallOut, OwnOf, TextsIn, Expand, Unended, RefsLower;
  }

  /** Without calls there are only the own tokens. */
  lemma {:induction false} InterleaveNone(texts: seq<seq<Token>>, own: seq<Delivery>, i: nat, j: nat, size: nat)
    requires i <= |own|
    ensures CallsOk(texts, own, i, j, NoCalls) && CallsFit(texts, own, i, j, NoCalls, size)
    ensures Interleave(texts, own, i, j, NoCalls) == own[i..]
    decreases |own| - i
  {
    if i < |own| {
      InterleaveNone(texts, own, i + 1, 0, size);
    }
  }

  // ----- The stack machine -----

  class Output {
    const stack: array<Level>
    var toks: seq<Token>
    var starts: seq<nat>
    var stackPtr: nat
    var curTok: nat
    var curEnd: nat
    var curMode: Mode

    ghost function Mem(): Memory
      reads this
    {
      Memory(toks, starts)
    }

    /** Entry 0 is never saved; the running level is in the cur_ registers. */
    ghost function Levels(): (levels: seq<Level>)
      requires stackPtr <= stack.Length
      ensures |levels| == stackPtr
      reads this`stackPtr, this`curTok, this`curEnd, this`curMode, stack
    {
      if stackPtr == 0 then [] else stack[1..stackPtr] + [Top()]
    }

    ghost function Top(): Level
      reads this`curTok, this`curEnd, this`curMode
    {
      Level(curTok, curEnd, curMode)
    }

    /** `push_level`; false is the overflow that ends the program. */
    method PushLevel(t: nat) returns (ok: bool)
      requires stackPtr < stack.Length && Mem().Frozen() && t < Mem().Count()
      modifies this`stackPtr, this`curTok, this`curEnd, stack
      ensures ok <==> old(stackPtr) + 1 < stack.Length
      ensures ok ==> stackPtr == old(stackPtr) + 1 && Levels() == old(Levels()) + [TextLevel(Mem(), t, curMode)]
      ensures !ok ==> stackPtr == old(stackPtr) && Levels() == old(Levels())
    {
      if stackPtr == stack.Length - 1 { return false; }
      ghost var below := if stackPtr == 0 then [] else stack[1..stackPtr];
      if stackPtr > 0 {
        stack[stackPtr] := Level(curTok, curEnd, curMode);
        assert stack[1..stackPtr + 1] == below + [Level(curTok, curEnd, curMode)];
      }
      stackPtr := stackPtr + 1;
      curTok, curEnd := starts[t], starts[t + 1];
      return true;
    }

    method PopLevel()
      requires 1 < stackPtr < stack.Length
      modifies this`stackPtr, this`curTok, this`curEnd, this`curMode
      ensures stackPtr == old(stackPtr) - 1 && Levels() == old(Levels())[..old(stackPtr) - 1]
    {
      stackPtr := stackPtr - 1;
      curEnd, curTok, curMode := stack[stackPtr].end, stack[stackPtr].tok, stack[stackPtr].mode;
      assert stack[1..stackPtr + 1] == stack[1..stackPtr] + [stack[stackPtr]];
    }

    /** Enters the text of a reference; an inner reference switches the mode. */
    method Enter(a: Token) returns (ok: bool)
      requires stackPtr < stack.Length && Mem().Frozen() && (a.Ref? || a.Inner?) && a.t < Mem().Count()
      modifies this`stackPtr, this`curTok, this`curEnd, this`curMode, stack
      ensures ok <==> old(stackPtr) + 1 < stack.Length
      ensures ok ==>
        && stackPtr == old(stackPtr) + 1
        && Levels() == old(Levels()) + [TextLevel(Mem(), a.t, if a.Inner? then InnerMode else old(curMode))]
      ensures !ok ==> stackPtr == old(stackPtr) && Levels() == old(Levels())
    {
      ok := PushLevel(a.t);
      if ok && a.Inner? {
        ghost var below, top := Levels()[..stackPtr - 1], Level(curTok, curEnd, curMode);
        curMode := InnerMode;
        assert Levels() == below + [top.(mode := InnerMode)];
      }
    }

    /** Moves the running level on by one token. */
    method Advance()
      requires 0 < stackPtr <= stack.Length
      modifies this`curTok
      ensures Levels() == old(Levels())[..stackPtr - 1] + [old(Top()).(tok := old(curTok) + 1)]
    {
      curTok := curTok + 1;
    }

    /** The state seen from level `floor` up, and what must not change below it. */
    ghost predicate Above(floor: nat, m: Memory, base: seq<Level>, upper: seq<Level>)
      reads this, stack
    {
      && Mem() == m && m.Frozen() && |base| == floor
      && floor < stackPtr < stack.Length && Levels() == base + upper
      && ValidLevels(m, upper)
    }

    /** `while(cur_tok==cur_end) pop_level()`. */
    method SkipFinished(ghost floor: nat, ghost m: Memory, ghost base: seq<Level>, ghost upper: seq<Level>)
        returns (ghost below: seq<Level>)
      requires Above(floor, m, base, upper) && Pending(m, upper, floor) != []
      modifies this`stackPtr, this`curTok, this`curEnd, this`curMode
      ensures Above(floor, m, base, below + [Top()]) && curTok != curEnd
      ensures Pending(m, below + [Top()], floor) == Pending(m, upper, floor)
      ensures Turns(m, below + [Top()]) <= Turns(m, upper)
      ensures Fits(m, below + [Top()], stack.Length - 1 - floor) <==> Fits(m, upper, stack.Length - 1 - floor)
      ensures (below + [Top()])[0].end == upper[0].end
    {
      hide Fits, Turns, Pending, Memory.Frozen, ValidLevels;
      ghost var room := stack.Length - 1 - floor;
      ghost var up := upper;
      TopIsLast(floor, m, base, up);
      while curTok == curEnd
        invariant Above(floor, m, base, up) && up == up[..|up| - 1] + [Top()] && up[0].end == upper[0].end
        invariant Pending(m, up, floor) == Pending(m, upper, floor)
        invariant Turns(m, up) <= Turns(m, upper)
        invariant Fits(m, up, room) <==> Fits(m, upper, room)
        decreases stackPtr
      {
        ghost var rest := up[..|up| - 1];
        PopKeeps(m, rest, Top(), floor, room);
        NothingBelow(m, floor);
        PopLevel();
        assert (base + up)[..floor + |up| - 1] == base + rest;
        up := rest;
        TopIsLast(floor, m, base, up);
      }
      below := up[..|up| - 1];
    }

    /**
     `get_output`: the next token of the expansion, or false for stack overflow. An
     overflow means that the stack is too low for what is pending, and only then. The
     levels below `floor` are not touched while something is pending above them.
     */
    method GetOutput(ghost floor: nat, ghost m: Memory, ghost base: seq<Level>, ghost upper: seq<Level>)
        returns (a: Token, ok: bool, ghost upper': seq<Level>)
      requires Above(floor, m, base, upper) && Pending(m, upper, floor) != []
      modifies this`stackPtr, this`curTok, this`curEnd, this`curMode, stack
      ensures ok ==> Above(floor, m, base, upper') && upper'[0].end == upper[0].end
      ensures ok ==> [Delivery(a, curMode, stackPtr - 1)] + Pending(m, upper', floor) == Pending(m, upper, floor)
      ensures ok ==> (Fits(m, upper', stack.Length - 1 - floor) <==> Fits(m, upper, stack.Length - 1 - floor))
      ensures !ok ==> !Fits(m, upper, stack.Length - 1 - floor)
    {
      hide Fits, Turns, Pending, Memory.Frozen, ValidLevels, ValidLevel, Expand, Depth, Cost, Rest, Levels;
      ghost var room := stack.Length - 1 - floor;
      upper' := upper;
      while true
        invariant Above(floor, m, base, upper') && upper'[0].end == upper[0].end
        invariant Pending(m, upper', floor) == Pending(m, upper, floor)
        invariant Fits(m, upper', room) <==> Fits(m, upper, room)
        decreases Turns(m, upper')
      {
        ghost var below := SkipFinished(floor, m, base, upper');
        ghost var top := Top();
        SplitTop(m, below, top, floor, room);
        ReadToken(m, top, floor + |below|);
        a := toks[curTok];
        Advance();
        ghost var next := top.(tok := top.tok + 1);
        Regroup(base, below, top, next);
        if a.Ref? || a.Inner? {
          PushKeeps(m, below, top, floor, room);
          ok := Enter(a);
          if !ok { return; }
          upper' := below + [next] + [TextLevel(m, a.t, if a.Inner? then InnerMode else top.mode)];
          assert base + (below + [next]) + [upper'[|below| + 1]] == base + upper';
        } else {
          DeliverKeeps(m, below, top, floor, room);
          upper' := below + [next];
          ok := true;
          return;
        }
      }
    }

    /** One own token of `make_output`: the next of its expansion, or the end. */
    method Deliver(ghost floor: nat, ghost m: Memory, ghost base: seq<Level>, ghost upper: seq<Level>, ghost own: seq<Delivery>,
                   ghost i: nat, ghost last: Delivery) returns (a: Token, ok: bool, ghost upper': seq<Level>)
      requires Above(floor, m, base, upper) && i <= |own| && Unended(own) && last.tok == END
      requires Pending(m, upper, floor) == own[i..] + [last]
      modifies this`stackPtr, this`curTok, this`curEnd, this`curMode, stack
      ensures ok ==> Above(floor, m, base, upper') && upper'[0].end == upper[0].end
      ensures ok ==> (a == END <==> i == |own|) && Delivery(a, curMode, stackPtr - 1) == (own + [last])[i]
      ensures ok ==> Pending(m, upper', floor) == if i == |own| then [] else own[i + 1..] + [last]
      ensures ok ==> (Fits(m, upper', stack.Length - 1 - floor) <==> Fits(m, upper, stack.Length - 1 - floor))
      ensures !ok ==> !Fits(m, upper, stack.Length - 1 - floor)
    {
      hide Fits, Pending, ValidLevels, Levels, Memory.Frozen;
      a, ok, upper' := GetOutput(floor, m, base, upper);
      if ok {
        NextInLine(own, i, last, Delivery(a, curMode, stackPtr - 1), Pending(m, upper', floor));
      }
    }

    /** The unfinished text becomes a text of its own, closed by end_translation, and is entered. */
    method Begin(ts: seq<Token>) returns (ok: bool, ghost first: Level)
      requires stackPtr < stack.Length && Mem().Frozen() && RefsLower(Mem().Texts()) && RefsBelow(ts, Mem().Count())
      modifies this, stack
      ensures ok <==> old(stackPtr) + 1 < stack.Length
      ensures ok ==>
        && Mem() == old(Mem()).Append(ts + [END]) && stackPtr == old(stackPtr) + 1 && curMode == old(curMode)
        && Above(old(stackPtr), Mem(), old(Levels()), [first]) && first.end == |Mem().toks|
        && |Mem().toks| > 0 && Mem().toks[|Mem().toks| - 1] == END
        && Pending(Mem(), [first], old(stackPtr))
           == Expand(old(Mem().Texts()), ts, old(curMode), old(stackPtr), old(Mem().Count()))
            + [Delivery(END, old(curMode), old(stackPtr))]
        && (Fits(Mem(), [first], stack.Length - 1 - old(stackPtr)) <==>
              old(stackPtr) + 1 + Depth(old(Mem().Texts()), ts, old(Mem().Count())) < stack.Length)
    {
      hide Fits, Pending, ValidLevels, ValidLevel, Expand, Depth, Rest;
      ghost var m0, floor := Mem(), stackPtr;
      EndedText(m0, ts, curMode, floor, stack.Length - 1 - floor);
      AppendTexts(m0, ts + [END]);
      first := TextLevel(m0.Append(ts + [END]), m0.Count(), curMode);
      toks := toks + (ts + [END]);
      starts := starts + [|toks|];
      ok := PushLevel(|starts| - 2);
    }

    /**
     `make_output`: the unfinished text `ts` becomes a text of its own, closed by
     end_translation, and is expanded on top of whatever is suspended. Between its tokens
     `output_C` is called, as `calls` says. If and only if the stack is high enough, its own
     tokens are delivered in full, each as if there had been no calls, with the tokens of
     each call in their place; and what is left is one used-up level over the levels that
     were there.
     */
    method MakeOutput(ts: seq<Token>, calls: Calls) returns (out: seq<Delivery>, ok: bool)
      requires stackPtr < stack.Length && Mem().Frozen() && RefsLower(Mem().Texts()) && RefsBelow(ts, Mem().Count())
      requires Unended(Expand(Mem().Texts(), ts, curMode, stackPtr, Mem().Count()))
      requires CallsOk(Mem().Texts() + [ts + [END]], Expand(Mem().Texts(), ts, curMode, stackPtr, Mem().Count()), 0, 0, calls)
      modifies this, stack
      ensures var texts, count := old(Mem().Texts()), old(Mem().Count());
        var own := Expand(texts, ts, old(curMode), old(stackPtr), count);
        && (ok <==>
              && old(stackPtr) + 1 + Depth(texts, ts, count) < stack.Length
              && CallsFit(texts + [ts + [END]], own, 0, 0, calls, stack.Length))
        && (ok ==> out == Interleave(texts + [ts + [END]], own, 0, 0, calls))
      ensures ok ==>
        && Mem() == old(Mem()).Append(ts + [END]) && stackPtr == old(stackPtr) + 1 < stack.Length
        && Levels() == old(Levels()) + [Top()] && curTok == curEnd && curMode == old(curMode)
      decreases calls, 1
    {
      hide Fits, Pending, ValidLevels, ValidLevel, Expand, Depth, Rest, Levels, RefsLower, RefsBelow, CallsOk,
        CallsFit, Interleave, CallOk, CallFits, CallOut, Unended;
      ghost var m0, base, floor, mode, room := Mem(), Levels(), stackPtr, curMode, stack.Length - 1 - stackPtr;
      ghost var own := Expand(m0.Texts(), ts, mode, floor, m0.Count());
      ghost var last := Delivery(END, mode, floor);
      AppendTexts(m0, ts + [END]);
      out := [];
      ghost var first: Level;
      ok, first := Begin(ts);
      if !ok { return; }
      ghost var m, texts, upper := Mem(), m0.Texts() + [ts + [END]], [first];
      var i, rest := 0, calls;
      ghost var j := 0;
      assert own[0..] == own;
      while true
        invariant Above(floor, m, base, upper) && upper[0].end == |m.toks| && i <= |own| && (i == 0 ==> j == 0)
        invariant Pending(m, upper, floor) == own[i..] + [last]
        invariant i > 0 ==> stackPtr == own[i - 1].level + 1 + j
        invariant rest == calls || rest < calls
        invariant CallsOk(texts, own, i, j, rest)
        invariant out + Interleave(texts, own, i, j, rest) == Interleave(texts, own, 0, 0, calls)
        invariant Fits(m, upper, room) && CallsFit(texts, own, i, j, rest, stack.Length)
             <==> Fits(m, [first], room) && CallsFit(texts, own, 0, 0, calls, stack.Length)
        decreases rest, |own| - i
      {
        InterleaveStep(texts, own, i, j, rest, stack.Length);
        if i > 0 && rest.Then? && rest.at == i - 1 {
          var more;
          more, ok := OutputC(rest);
          if !ok { return; }
          Resumed(m, upper, Top(), floor, room);
          assert base + (upper + [Top()]) == base + upper + [Top()];
          upper := upper + [Top()];
          out, rest := out + more, rest.rest;
          j := j + 1;
        } else {
          var a;
          a, ok, upper := Deliver(floor, m, base, upper, own, i, last);
          if !ok { return; }
          if a == END {
            LastLevelUsedUp(m, upper, floor, room);
            TopIsLast(floor, m, base, upper);
            return;
          }
          out := out + [Delivery(a, curMode, stackPtr - 1)];
          i := i + 1;
          j := 0;
        }
      }
    }

    /**
     `output_C`: the texts that `C_translate` has added are delivered in inner mode, with
     further calls in between, and then forgotten. The levels that were suspended are there
     again, under one that is used up, and the mode is what it was.
     */
    method OutputC(c: Calls) returns (out: seq<Delivery>, ok: bool)
      requires stackPtr < stack.Length && Mem().Frozen() && c.Then? && CallOk(Mem().Texts(), stackPtr, c)
      modifies this, stack
      ensures ok <==> CallFits(old(Mem().Texts()), old(stackPtr), c, stack.Length)
      ensures ok ==> out == CallOut(old(Mem().Texts()), old(stackPtr), c)
      ensures ok ==>
        && Mem() == old(Mem()) && stackPtr == old(stackPtr) + 1 < stack.Length
        && Levels() == old(Levels()) + [Top()] && curTok == curEnd && curMode == old(curMode)
      decreases c, 0
    {
      hide Memory.Frozen, RefsLower, RefsBelow, Expand, Depth, Levels, CallsOk, CallsFit, Interleave, Unended;
      var saveToks, saveStarts := toks, starts;
      ghost var m0, base := Mem(), Levels();
      ghost var all := m0.Texts() + c.added;
      assert m0.Texts() + c.added[..0] == m0.Texts();
      var i := 0;
      while i < |c.added|
        invariant 0 <= i <= |c.added| && stackPtr == old(stackPtr) && curMode == old(curMode) && Levels() == base
        invariant Mem().Frozen() && Mem().Count() == m0.Count() + i && Mem().Texts() == m0.Texts() + c.added[..i]
        modifies this`toks, this`starts
      {
        AppendTexts(Mem(), c.added[i]);
        assert m0.Texts() + c.added[..i + 1] == m0.Texts() + c.added[..i] + [c.added[i]];
        toks := toks + c.added[i];
        starts := starts + [|toks|];
        i := i + 1;
      }
      assert c.added[..|c.added|] == c.added;
      TextsCount(Mem());
      assert Mem().Texts() == all;
      InnerReference(all, c.p, curMode, stackPtr);
      out, ok := MakeOutput([Inner(c.p)], c.inner);
      if ok {
        toks, starts := saveToks, saveStarts;
      }
    }

    lemma TopIsLast(floor: nat, m: Memory, base: seq<Level>, upper: seq<Level>)
      requires Above(floor, m, base, upper)
      ensures upper != [] && upper == upper[..|upper| - 1] + [Top()] && |upper| == stackPtr - floor
    {
      hide Memory.Frozen, ValidLevels;
      assert Levels()[|Levels()| - 1] == upper[|upper| - 1];
    }
  }

  lemma Regroup(base: seq<Level>, below: seq<Level>, top: Level, next: Level)
    ensures |base + (below + [top])| == |base| + |below| + 1
    ensures (base + (below + [top]))[..|base| + |below|] + [next] == base + (below + [next])
    ensures |below| > 0 ==> (below + [next])[0] == below[0] == (below + [top])[0]
  {
  }

  lemma {:induction false} ExpandSnoc(texts: seq<seq<Token>>, ts: seq<Token>, tok: Token, mode: Mode, level: nat, bound: nat)
    ensures Expand(texts, ts + [tok], mode, level, bound)
         == Expand(texts, ts, mode, level, bound) + ExpandToken(texts, tok, mode, level, bound)
    ensures var d, r := DepthToken(texts, tok, bound), Depth(texts, ts, bound);
      Depth(texts, ts + [tok], bound) == if d < r then r else d
    decreases |ts|
  {
    if ts == [] {
      assert [] + [tok] == [tok] && [tok][1..] == [];
      assert Expand(texts, [tok], mode, level, bound) == ExpandToken(texts, tok, mode, level, bound) + Expand(texts, [], mode, level, bound);
    } else {
      ExpandSnoc(texts, ts[1..], tok, mode, level, bound);
      assert (ts + [tok])[0] == ts[0] && (ts + [tok])[1..] == ts[1..] + [tok];
    }
  }

  /** What is pending once `ts`, closed by end_translation, has been pushed. */
  lemma EndedText(m: Memory, ts: seq<Token>, mode: Mode, floor: nat, room: int)
    requires m.Frozen() && RefsLower(m.Texts()) && RefsBelow(ts, m.Count())
    ensures var m', t := m.Append(ts + [END]), m.Count();
      && m'.Frozen() && t < m'.Count() && m'.starts[t + 1] == |m'.toks|
      && var upper := [TextLevel(m', t, mode)];
         && ValidLevels(m', upper)
         && Pending(m', upper, floor) == Expand(m.Texts(), ts, mode, floor, t) + [Delivery(END, mode, floor)]
         && (Fits(m', upper, room) <==> 1 + Depth(m.Texts(), ts, t) <= room)
  {
    hide Expand, Depth, Cost, Pending, Rest;
    var m', t := m.Append(ts + [END]), m.Count();
    AppendTexts(m, ts + [END]);
    assert RefsBelow(ts + [END], t);
    assert RefsLower(m'.Texts());
    var l := TextLevel(m', t, mode);
    PushText(m', t, mode, floor);
    SplitTop(m', [], l, floor, room);
    assert [] + [l] == [l];
    ExpandSnoc(m'.Texts(), ts, END, mode, floor, t);
    ExpandFrame(m.Texts(), m'.Texts(), ts, mode, floor, t, t);
    NothingBelow(m', floor);
  }

  /** The next delivery is the next element of the whole expansion. */
  lemma NextInLine(own: seq<Delivery>, i: nat, last: Delivery, d: Delivery, rest: seq<Delivery>)
    requires i <= |own| && [d] + rest == own[i..] + [last] && Unended(own) && last.tok == END
    ensures d == (own + [last])[i] && (d.tok == END <==> i == |own|)
    ensures rest == if i == |own| then [] else own[i + 1..] + [last]
  {
    var all := own[i..] + [last];
    assert d == all[0] && rest == all[1..];
  }

  /** After end_translation has been delivered from the bottom level, that level is used up. */
  lemma LastLevelUsedUp(m: Memory, upper: seq<Level>, floor: nat, room: int)
    requires m.Frozen() && |upper| == 1 && Pending(m, upper, floor) == [] && ValidLevels(m, upper)
    requires upper[0].end == |m.toks| && |m.toks| > 0 && m.toks[|m.toks| - 1] == END && 1 <= room
    ensures upper[0].tok == upper[0].end && Fits(m, upper, room)
  {
    var l := upper[0];
    assert ValidLevel(m, l);
    SplitTop(m, [], l, floor, room);
    assert [] + [l] == upper;
    if l.tok != l.end {
      var ts := Rest(m, l);
      assert ts == ts[..|ts| - 1] + [END];
      ExpandSnoc(m.Texts(), ts[..|ts| - 1], END, l.mode, floor, m.Count());
    }
  }

  /** An inner reference on its own. */
  lemma InnerReference(texts: seq<seq<Token>>, p: nat, mode: Mode, level: nat)
    requires RefsLower(texts) && p < |texts|
    ensures RefsBelow([Inner(p)], |texts|)
    ensures Expand(texts, [Inner(p)], mode, level, |texts|) == Expand(texts, texts[p], InnerMode, level + 1, p)
    ensures Depth(texts, [Inner(p)], |texts|) == 1 + Depth(texts, texts[p], p)
  {
    assert [Inner(p)][1..] == [];
    assert Expand(texts, [Inner(p)], mode, level, |texts|)
        == Expand(texts, texts[p], InnerMode, level + 1, p) + Expand(texts, [], mode, level, |texts|);
  }

  lemma TextsCount(m: Memory)
    requires m.Frozen()
    ensures 0 <= m.Count() == |m.Texts()|
  {
  }

  /** With no level there is nothing left to deliver. */
  lemma NothingBelow(m: Memory, floor: nat)
    requires m.Frozen()
    ensures Pending(m, [], floor) == []
  {
  }
}
