/**
 CTANGLE's phase two: section references are expanded with an explicit stack
 (cweb/ctangle.c:514-589, 609-670).
 */
module TangleExpand {
  import opened TangleTokens

  /** What goes to the output file: tokens, the macros, and the comments around the text of a section. */
  datatype Out = Emit(x: Item) | DefsBlock | Open(n: nat) | Close(n: nat)

  /**
   text_info and equiv: the items and the text_link of each replacement text, and the
   first text of each name (0 when the name is not defined).
   */
  datatype Tables = Tables(items: seq<seq<Item>>, link: seq<nat>, equiv: seq<nat>) {
    /** Text t belongs to a section: its link leads forward or is section_flag. (Macros have link 0.) */
    ghost predicate IsCode(t: nat) {
      t < |items| && t < |link| && t < link[t]
    }

    /** Names lead to texts of sections, and so do links. */
    ghost predicate Valid() {
      && |link| == |items|
      && (forall t :: 0 <= t < |link| && IsCode(t) && link[t] < |items| ==> IsCode(link[t]))
      && (forall n :: 0 <= n < |equiv| ==> equiv[n] == 0 || IsCode(equiv[n]))
      && forall t, i :: 0 <= t < |items| && 0 <= i < |items[t]| ==> ItemOk(items[t][i])
    }

    /** A token that was read whole, and refers to a name of the directory. */
    ghost predicate ItemOk(x: Item) {
      match x
      case SecRef(n) => 0 <= n < |equiv|
      case SecNum(n) => 0 < n
      case Broken => false
      case _ => true
    }

    /** Whether text t has a continuation: its text_link is below section_flag. */
    predicate Continues(t: nat)
      requires t < |link|
    {
      link[t] < |items|
    }
  }

  // ----- The recursive meaning -----

  /** An expansion, cut short where the stack overflows. */
  datatype Result = Result(out: seq<Out>, ok: bool) {
    ghost function Then(r: Result): Result {
      if ok then Result(out + r.out, r.ok) else this
    }
  }

  /**
   What remains of a replacement text from position pos, with its continuations, when
   `section` is the current section number and `room` more levels may be pushed.
   */
  ghost function Expand(T: Tables, t: nat, pos: nat, section: nat, room: nat): Result
    requires T.Valid() && T.IsCode(t) && pos <= |T.items[t]|
    decreases room, |T.items| - t, |T.items[t]| - pos
  {
    if pos == |T.items[t]| then
      var close := if section == 0 then [] else [Close(section)];
      if T.Continues(t) then Result(close, true).Then(Expand(T, T.link[t], 0, section, room)) else Result(close, true)
    else
      var x := T.items[t][pos];
      assert T.ItemOk(x);
      match x
      case SecRef(n) =>
        if T.equiv[n] == 0 then Expand(T, t, pos + 1, section, room)
        else if room == 0 then Result([], false)
        else Expand(T, T.equiv[n], 0, 0, room - 1).Then(Expand(T, t, pos + 1, section, room))
      case Defs =>
        if room == 0 then Result([], false)
        else Result([DefsBlock], true).Then(Expand(T, t, pos + 1, section, room))
      case SecNum(n) => Result([Open(n)], true).Then(Expand(T, t, pos + 1, n, room))
      case _ => Result([Emit(x)], true).Then(Expand(T, t, pos + 1, section, room))
  }

  /** The number of turns the stack machine takes over the same stretch. */
  ghost function Turns(T: Tables, t: nat, pos: nat, room: nat): nat
    requires T.Valid() && T.IsCode(t) && pos <= |T.items[t]|
    decreases room, |T.items| - t, |T.items[t]| - pos
  {
    if pos == |T.items[t]| then
      1 + (if T.Continues(t) then Turns(T, T.link[t], 0, room) else 0)
    else
      var x := T.items[t][pos];
      assert T.ItemOk(x);
      1 + Turns(T, t, pos + 1, room)
      + (if x.SecRef? && T.equiv[x.n] != 0 && room > 0 then Turns(T, T.equiv[x.n], 0, room - 1) else 0)
  }

  // ----- Levels -----

  /** A stack entry: repl_field, byte_field and section_field. */
  datatype Level = Level(repl: nat, pos: nat, section: nat)

  ghost predicate ValidLevel(T: Tables, l: Level) {
    T.IsCode(l.repl) && l.pos <= |T.items[l.repl]|
  }

  ghost predicate ValidLevels(T: Tables, levels: seq<Level>) {
    forall i :: 0 <= i < |levels| ==> ValidLevel(T, levels[i])
  }

  /** Everything the levels still stand for, top of the stack first. */
  ghost function Pending(T: Tables, levels: seq<Level>, size: nat): Result
    requires T.Valid() && ValidLevels(T, levels) && |levels| <= size
  {
    if levels == [] then Result([], true)
    else
      var l, below := levels[|levels| - 1], levels[..|levels| - 1];
      assert ValidLevel(T, l);
      Expand(T, l.repl, l.pos, l.section, size - |levels|).Then(Pending(T, below, size))
  }

  ghost function AllTurns(T: Tables, levels: seq<Level>, size: nat): nat
    requires T.Valid() && ValidLevels(T, levels) && |levels| <= size
  {
    if levels == [] then 0
    else
      var l, below := levels[|levels| - 1], levels[..|levels| - 1];
      assert ValidLevel(T, l);
      Turns(T, l.repl, l.pos, size - |levels|) + AllTurns(T, below, size)
  }

  lemma SplitTop(T: Tables, below: seq<Level>, l: Level, size: nat)
    requires T.Valid() && ValidLevels(T, below) && ValidLevel(T, l) && |below| < size
    ensures ValidLevels(T, below + [l])
    ensures Pending(T, below + [l], size)
         == Expand(T, l.repl, l.pos, l.section, size - |below| - 1).Then(Pending(T, below, size))
    ensures AllTurns(T, below + [l], size) == Turns(T, l.repl, l.pos, size - |below| - 1) + AllTurns(T, below, size)
  {
    assert (below + [l])[..|below + [l]| - 1] == below;
  }

  /** Results form a monoid, so what is done may be split off anywhere. */
  lemma ThenAssociative(a: Result, b: Result, c: Result)
    ensures a.Then(b).Then(c) == a.Then(b.Then(c))
    ensures Result([], true).Then(c) == c
  {
  }

  /** What `pop_level(1)` makes of the levels. */
  function Popped(T: Tables, levels: seq<Level>): seq<Level>
    requires levels != [] && levels[|levels| - 1].repl < |T.link|
  {
    var l, below := levels[|levels| - 1], levels[..|levels| - 1];
    if T.Continues(l.repl) then below + [Level(T.link[l.repl], 0, l.section)] else below
  }

  // ----- The stack machine -----

  class Expander {
    const T: Tables
    const stackSize: nat
    const stack: array<Level>
    var stackPtr: nat
    var curRepl: nat
    var curPos: nat
    var curSection: nat
    var out: seq<Out>

    ghost function Top(): Level
      reads this
    {
      Level(curRepl, curPos, curSection)
    }

    /** Entry 0 is never used; the running level is in cur_state. */
    ghost function Levels(): (levels: seq<Level>)
      requires stackPtr <= stack.Length
      ensures |levels| == stackPtr
      reads this, stack
    {
      if stackPtr == 0 then [] else stack[1..stackPtr] + [Top()]
    }

    ghost predicate Valid()
      reads this, stack
    {
      && T.Valid() && stackSize + 1 == stack.Length && stackPtr <= stackSize
      && ValidLevels(T, Levels())
    }

    /** What has been written and what is still to come. */
    ghost function Whole(): Result
      requires Valid()
      reads this, stack
    {
      Result(out, true).Then(Pending(T, Levels(), stackSize))
    }

    constructor (T: Tables, size: nat)
      ensures this.T == T && stackSize == size && stack.Length == size + 1 && fresh(stack) && out == []
    {
      this.T, stackSize := T, size;
      stack := new Level[size + 1](i => Level(0, 0, 0));
      stackPtr, curRepl, curPos, curSection := 0, 0, 0, 0;
      out := [];
    }

    /** `push_level`; false is the overflow that ends the program. */
    method PushLevel(n: nat) returns (ok: bool)
      requires Valid() && 0 < stackPtr && n < |T.equiv|
      modifies this`stackPtr, this`curRepl, this`curPos, this`curSection, stack
      ensures ok <==> old(stackPtr) < stackSize
      ensures !ok ==> stackPtr == old(stackPtr) && Levels() == old(Levels())
      ensures ok ==> stackPtr == old(stackPtr) + 1 && Levels() == old(Levels()) + [Level(T.equiv[n], 0, 0)]
    {
      if stackPtr == stackSize { return false; }
      ghost var below := stack[1..stackPtr];
      stack[stackPtr] := Level(curRepl, curPos, curSection);
      assert stack[1..stackPtr + 1] == below + [Level(curRepl, curPos, curSection)];
      stackPtr := stackPtr + 1;
      curRepl, curPos, curSection := T.equiv[n], 0, 0;
      return true;
    }

    /** `pop_level(1)`: the next text of the same name, or back to the caller's text. */
    method PopLevel()
      requires stackSize + 1 == stack.Length && 0 < stackPtr <= stackSize && curRepl < |T.link|
      modifies this`stackPtr, this`curRepl, this`curPos, this`curSection
      ensures stackPtr <= stackSize && Levels() == Popped(T, old(Levels()))
    {
      if T.link[curRepl] < |T.items| {
        curRepl, curPos := T.link[curRepl], 0;
        return;
      }
      stackPtr := stackPtr - 1;
      if stackPtr > 0 {
        curRepl, curPos, curSection := stack[stackPtr].repl, stack[stackPtr].pos, stack[stackPtr].section;
        assert stack[1..stackPtr + 1] == stack[1..stackPtr] + [stack[stackPtr]];
      }
    }

    lemma TopIsValid()
      requires Valid() && 0 < stackPtr
      ensures ValidLevel(T, Top()) && ValidLevels(T, Levels()[..stackPtr - 1])
      ensures Levels() == Levels()[..stackPtr - 1] + [Top()]
    {
      assert Levels()[stackPtr - 1] == Top();
    }

    /** The end of a text: its closing mark, then the next text or the level below. */
    method FinishText() returns (marked: bool)
      requires Valid() && 0 < stackPtr && T.IsCode(curRepl) && curPos == |T.items[curRepl]|
      modifies this
      ensures Valid() && Whole() == old(Whole())
      ensures AllTurns(T, Levels(), stackSize) < old(AllTurns(T, Levels(), stackSize))
      ensures marked || out == old(out)
    {
      hide Expand, Turns, Pending, AllTurns;
      TopIsValid();
      ghost var below, l, room := Levels()[..stackPtr - 1], Top(), stackSize - stackPtr;
      SplitTop(T, below, l, stackSize);
      if T.Continues(curRepl) { SplitTop(T, below, Level(T.link[curRepl], 0, curSection), stackSize); }
      var section := curSection;
      PopLevel();
      marked := section != 0;
      if marked { out := out + [Close(section)]; }
      ghost var close := Result(if section == 0 then [] else [Close(section)], true);
      TurnsEnd(T, l, room);
      FinishOut(T, l, room, Result(old(out), true), close, Pending(T, below, stackSize));
    }

    /** Reads one item that does not push anything. */
    method WriteItem(x: Item)
      requires Valid() && 0 < stackPtr && T.IsCode(curRepl) && curPos < |T.items[curRepl]| && x == T.items[curRepl][curPos]
      requires (x.SecRef? ==> 0 <= x.n < |T.equiv| && T.equiv[x.n] == 0) && (x.Defs? ==> stackPtr < stackSize)
      modifies this
      ensures Valid() && Whole() == old(Whole())
      ensures AllTurns(T, Levels(), stackSize) < old(AllTurns(T, Levels(), stackSize))
    {
      hide Expand, Turns, Pending, AllTurns;
      TopIsValid();
      ghost var below, l, room := Levels()[..stackPtr - 1], Top(), stackSize - stackPtr;
      SplitTop(T, below, l, stackSize);
      curPos := curPos + 1;
      ItemUnfold(T, l, room);
      ghost var piece := Result(Written(x), true);
      if x.SecNum? {
        curSection := x.n;
        out := out + [Open(x.n)];
      } else if x.Defs? {
        out := out + [DefsBlock];
      } else if !x.SecRef? {
        out := out + [Emit(x)];
      }
      assert Levels() == below + [Top()];
      SplitTop(T, below, Top(), stackSize);
      ItemOut(T, l, Top(), room, Result(old(out), true), piece, Pending(T, below, stackSize));
    }

    /** Reads a reference to a defined section, and enters it if there is room. */
    method EnterSection(n: nat) returns (ok: bool)
      requires Valid() && 0 < stackPtr && T.IsCode(curRepl) && curPos < |T.items[curRepl]|
      requires T.items[curRepl][curPos] == SecRef(n) && n < |T.equiv| && T.equiv[n] != 0
      modifies this, stack
      ensures ok ==> Valid() && Whole() == old(Whole())
      ensures ok ==> AllTurns(T, Levels(), stackSize) < old(AllTurns(T, Levels(), stackSize))
      ensures !ok ==> old(Whole()) == Result(out, false)
    {
      hide Expand, Turns, Pending, AllTurns, Tables.Valid, ValidLevels;
      TopIsValid();
      ghost var below, l := Levels()[..stackPtr - 1], Top();
      EnterPending(T, below, l, n, stackSize);
      curPos := curPos + 1;
      ghost var next := Top();
      assert Levels() == below + [next];
      ok := PushLevel(n);
    }

    /** `get_output`: up to the next piece of output, or to the end of everything. */
    method GetOutput() returns (ok: bool)
      requires Valid() && 0 < stackPtr
      modifies this, stack
      ensures ok ==> Valid() && Whole() == old(Whole())
      ensures ok ==> AllTurns(T, Levels(), stackSize) < old(AllTurns(T, Levels(), stackSize))
      ensures !ok ==> old(Whole()) == Result(out, false)
    {
      hide Expand, Turns, Pending, AllTurns;
      while stackPtr > 0
        invariant Valid() && Whole() == old(Whole())
        invariant AllTurns(T, Levels(), stackSize) < old(AllTurns(T, Levels(), stackSize))
               || (Levels() == old(Levels()) && stackPtr == old(stackPtr))
        decreases AllTurns(T, Levels(), stackSize)
      {
        TopIsValid();
        if curPos == |T.items[curRepl]| {
          var marked := FinishText();
          if marked { return true; }
        } else {
          var x := T.items[curRepl][curPos];
          assert T.ItemOk(x);
          if x.SecRef? && T.equiv[x.n] != 0 {
            ok := EnterSection(x.n);
            if !ok { return; }
          } else if x.Defs? && stackPtr == stackSize {
            OverflowAtDefs();
            return false;
          } else {
            WriteItem(x);
            if !x.SecRef? { return true; }
          }
        }
      }
      return true;
    }

    lemma OverflowAtDefs()
      requires Valid() && 0 < stackPtr == stackSize && T.IsCode(curRepl) && curPos < |T.items[curRepl]|
      requires T.items[curRepl][curPos] == Defs
      ensures Whole() == Result(out, false)
    {
      TopIsValid();
      SplitTop(T, Levels()[..stackPtr - 1], Top(), stackSize);
    }

    /** `output_defs` before the program: it needs room for one level. */
    method WriteDefs() returns (ok: bool)
      requires 1 <= stackSize
      modifies this`stackPtr, this`out
      ensures Result(out, ok) == Result(old(out), true).Then(LeadingDefs(stackSize))
    {
      stackPtr := 1;
      if stackPtr == stackSize { return false; }
      out := out + [DefsBlock];
      return true;
    }

    /**
     `while(stack_ptr>stack) get_output()`: to the output is added the recursive expansion of
     the root text and its continuations, complete or up to the stack overflow.
     */
    method ExpandAll(root: nat, section: nat) returns (ok: bool)
      requires T.Valid() && stackSize + 1 == stack.Length && 1 <= stackSize && T.IsCode(root)
      modifies this, stack
      ensures Result(out, ok) == Result(old(out), true).Then(Expand(T, root, 0, section, stackSize - 1))
    {
      hide Expand, Turns, AllTurns;
      stackPtr, curRepl, curPos, curSection := 1, root, 0, section;
      assert Levels() == [] + [Level(root, 0, section)];
      SplitTop(T, [], Level(root, 0, section), stackSize);
      ghost var goal := Result(old(out), true).Then(Expand(T, root, 0, section, stackSize - 1));
      assert Whole() == goal;
      ok := true;
      while stackPtr > 0
        invariant Valid() && Whole() == goal && ok
        decreases AllTurns(T, Levels(), stackSize)
      {
        ok := GetOutput();
        if !ok { return; }
      }
    }
  }

  /** The macros in front of the program. */
  function LeadingDefs(size: nat): Result {
    if size == 1 then Result([], false) else Result([DefsBlock], true)
  }

  /** How one item of a level shows in the output. */
  lemma ItemOut(T: Tables, l: Level, next: Level, room: nat, done: Result, piece: Result, rest: Result)
    requires T.Valid() && ValidLevel(T, l) && ValidLevel(T, next) && done.ok && piece.ok
    requires Expand(T, l.repl, l.pos, l.section, room) == piece.Then(Expand(T, next.repl, next.pos, next.section, room))
    ensures done.Then(Expand(T, l.repl, l.pos, l.section, room).Then(rest))
         == done.Then(piece).Then(Expand(T, next.repl, next.pos, next.section, room).Then(rest))
  {
    hide Expand;
    ThenAssociative(piece, Expand(T, next.repl, next.pos, next.section, room), rest);
  }

  /** How the end of a text shows in the output. */
  lemma FinishOut(T: Tables, l: Level, room: nat, done: Result, close: Result, rest: Result)
    requires T.Valid() && ValidLevel(T, l) && l.pos == |T.items[l.repl]| && done.ok
    requires close == Result(if l.section == 0 then [] else [Close(l.section)], true)
    ensures T.Continues(l.repl) ==>
      done.Then(Expand(T, l.repl, l.pos, l.section, room).Then(rest))
      == done.Then(close).Then(Expand(T, T.link[l.repl], 0, l.section, room).Then(rest))
    ensures !T.Continues(l.repl) ==>
      done.Then(Expand(T, l.repl, l.pos, l.section, room).Then(rest)) == done.Then(close).Then(rest)
  {
    hide Expand;
    ExpandEnd(T, l, room);
    if T.Continues(l.repl) {
      ThenAssociative(close, Expand(T, T.link[l.repl], 0, l.section, room), rest);
    }
  }

  lemma TurnsEnd(T: Tables, l: Level, room: nat)
    requires T.Valid() && ValidLevel(T, l) && l.pos == |T.items[l.repl]|
    ensures Turns(T, l.repl, l.pos, room) == 1 + if T.Continues(l.repl) then Turns(T, T.link[l.repl], 0, room) else 0
  {
  }

  /** What an item that pushes nothing writes. */
  ghost function Written(x: Item): seq<Out> {
    match x
    case SecNum(n) => if n > 0 then [Open(n)] else []
    case Defs => [DefsBlock]
    case SecRef(_) => []
    case _ => [Emit(x)]
  }

  lemma ItemUnfold(T: Tables, l: Level, room: nat)
    requires T.Valid() && ValidLevel(T, l) && l.pos < |T.items[l.repl]|
    requires var x := T.items[l.repl][l.pos]; (x.SecRef? ==> 0 <= x.n < |T.equiv| && T.equiv[x.n] == 0) && (x.Defs? ==> room > 0)
    ensures var x := T.items[l.repl][l.pos];
      && Turns(T, l.repl, l.pos, room) > Turns(T, l.repl, l.pos + 1, room)
      && Expand(T, l.repl, l.pos, l.section, room)
         == Result(Written(x), true)
            .Then(Expand(T, l.repl, l.pos + 1, if x.SecNum? then x.n else l.section, room))
  {
    var x := T.items[l.repl][l.pos];
    if x.SecRef? {
      ThenAssociative(Result([], true), Result([], true), Expand(T, l.repl, l.pos + 1, l.section, room));
    }
  }

  lemma ReferenceUnfold(T: Tables, l: Level, n: nat, room: nat)
    requires T.Valid() && ValidLevel(T, l) && l.pos < |T.items[l.repl]| && T.items[l.repl][l.pos] == SecRef(n)
    requires n < |T.equiv| && T.equiv[n] != 0
    ensures room == 0 ==> Expand(T, l.repl, l.pos, l.section, room) == Result([], false)
    ensures room > 0 ==>
      && Expand(T, l.repl, l.pos, l.section, room)
         == Expand(T, T.equiv[n], 0, 0, room - 1).Then(Expand(T, l.repl, l.pos + 1, l.section, room))
      && Turns(T, l.repl, l.pos, room) == 1 + Turns(T, l.repl, l.pos + 1, room) + Turns(T, T.equiv[n], 0, room - 1)
  {
  }

  /** Entering a section keeps what is to come, and comes one turn closer to its end. */
  lemma EnterPending(T: Tables, below: seq<Level>, l: Level, n: nat, size: nat)
    requires T.Valid() && ValidLevels(T, below) && ValidLevel(T, l) && |below| < size
    requires l.pos < |T.items[l.repl]| && T.items[l.repl][l.pos] == SecRef(n) && n < |T.equiv| && T.equiv[n] != 0
    ensures var next, top := l.(pos := l.pos + 1), Level(T.equiv[n], 0, 0);
      && ValidLevels(T, below + [l]) && ValidLevels(T, below + [next]) && ValidLevels(T, below + [next] + [top])
      && (|below| + 1 == size ==> Pending(T, below + [l], size) == Result([], false))
      && (|below| + 1 < size ==>
            && Pending(T, below + [next] + [top], size) == Pending(T, below + [l], size)
            && AllTurns(T, below + [next] + [top], size) < AllTurns(T, below + [l], size))
  {
    hide Expand, Turns, Pending, AllTurns;
    var next, top, room := l.(pos := l.pos + 1), Level(T.equiv[n], 0, 0), size - |below| - 1;
    SplitTop(T, below, l, size);
    SplitTop(T, below, next, size);
    ReferenceUnfold(T, l, n, room);
    if room > 0 {
      SplitTop(T, below + [next], top, size);
      ThenAssociative(Expand(T, top.repl, 0, 0, room - 1), Expand(T, l.repl, l.pos + 1, l.section, room), Pending(T, below, size));
    }
  }

  lemma ExpandEnd(T: Tables, l: Level, room: nat)
    requires T.Valid() && ValidLevel(T, l) && l.pos == |T.items[l.repl]|
    ensures var close := Result(if l.section == 0 then [] else [Close(l.section)], true);
      Expand(T, l.repl, l.pos, l.section, room)
      == if T.Continues(l.repl) then close.Then(Expand(T, T.link[l.repl], 0, l.section, room)) else close
  {
  }

  // ----- When the stack suffices -----

  /**
   k pushes can be outstanding at once on the way from (t, pos) to the end of its chain:
   a path of k nested references, the last of which may be an @h.
   */
  ghost predicate Nests(T: Tables, t: nat, pos: nat, k: nat)
    requires T.Valid() && T.IsCode(t) && pos <= |T.items[t]|
    decreases k, |T.items| - t, |T.items[t]| - pos
  {
    if k == 0 then true
    else if pos == |T.items[t]| then T.Continues(t) && Nests(T, T.link[t], 0, k)
    else
      var x := T.items[t][pos];
      assert T.ItemOk(x);
      || (x.SecRef? && T.equiv[x.n] != 0 && Nests(T, T.equiv[x.n], 0, k - 1))
      || (x.Defs? && k == 1)
      || Nests(T, t, pos + 1, k)
  }

  /** The stack overflows exactly when references nest deeper than there is room. */
  lemma {:induction false} OverflowExactly(T: Tables, t: nat, pos: nat, section: nat, room: nat)
    requires T.Valid() && T.IsCode(t) && pos <= |T.items[t]|
    ensures Expand(T, t, pos, section, room).ok <==> !Nests(T, t, pos, room + 1)
    decreases room, |T.items| - t, |T.items[t]| - pos
  {
    if pos == |T.items[t]| {
      if T.Continues(t) { OverflowExactly(T, T.link[t], 0, section, room); }
    } else {
      var x := T.items[t][pos];
      assert T.ItemOk(x);
      OverflowExactly(T, t, pos + 1, if x.SecNum? then x.n else section, room);
      if x.SecRef? && T.equiv[x.n] != 0 && room > 0 {
        OverflowExactly(T, T.equiv[x.n], 0, 0, room - 1);
      }
    }
  }

  /** A complete expansion does not depend on how much room was left. */
  lemma {:induction false} RoomIrrelevant(T: Tables, t: nat, pos: nat, section: nat, room: nat, more: nat)
    requires T.Valid() && T.IsCode(t) && pos <= |T.items[t]| && room <= more
    requires Expand(T, t, pos, section, room).ok
    ensures Expand(T, t, pos, section, more) == Expand(T, t, pos, section, room)
    decreases room, |T.items| - t, |T.items[t]| - pos
  {
    if pos == |T.items[t]| {
      if T.Continues(t) { RoomIrrelevant(T, T.link[t], 0, section, room, more); }
    } else {
      var x := T.items[t][pos];
      assert T.ItemOk(x);
      RoomIrrelevant(T, t, pos + 1, if x.SecNum? then x.n else section, room, more);
      if x.SecRef? && T.equiv[x.n] != 0 {
        RoomIrrelevant(T, T.equiv[x.n], 0, 0, room - 1, more - 1);
      }
    }
  }

  /** A rank on texts under which every reference descends: no section contains itself. */
  ghost predicate Acyclic(T: Tables, rank: map<nat, nat>)
    requires T.Valid()
  {
    && (forall t :: 0 <= t < |T.items| && T.IsCode(t) ==> t in rank)
    && (forall t :: 0 <= t < |T.items| && T.IsCode(t) && T.link[t] < |T.items| ==> rank[T.link[t]] == rank[t])
    && forall t, i :: 0 <= t < |T.items| && T.IsCode(t) && 0 <= i < |T.items[t]| ==> Descends(T, rank, t, T.items[t][i])
  }

  ghost predicate Descends(T: Tables, rank: map<nat, nat>, t: nat, x: Item)
    requires t in rank
  {
    && (x.SecRef? && 0 <= x.n < |T.equiv| && T.equiv[x.n] != 0 ==> T.equiv[x.n] in rank && rank[T.equiv[x.n]] < rank[t])
    && (x.Defs? ==> 0 < rank[t])
  }

  /** Without cycles the nesting is bounded by the rank, so a stack that high is enough. */
  lemma {:induction false} AcyclicFits(T: Tables, rank: map<nat, nat>, t: nat, pos: nat, k: nat)
    requires T.Valid() && Acyclic(T, rank) && T.IsCode(t) && pos <= |T.items[t]| && rank[t] < k
    ensures !Nests(T, t, pos, k)
    decreases k, |T.items| - t, |T.items[t]| - pos
  {
    if pos == |T.items[t]| {
      if T.Continues(t) { AcyclicFits(T, rank, T.link[t], 0, k); }
    } else {
      var x := T.items[t][pos];
      assert T.ItemOk(x) && Descends(T, rank, t, x);
      AcyclicFits(T, rank, t, pos + 1, k);
      if x.SecRef? && T.equiv[x.n] != 0 {
        AcyclicFits(T, rank, T.equiv[x.n], 0, k - 1);
      }
    }
  }

  /** The section of name n mentions itself, directly. */
  ghost predicate RefersTo(T: Tables, t: nat, pos: nat, n: nat)
    requires T.Valid() && T.IsCode(t) && pos <= |T.items[t]|
    decreases |T.items| - t, |T.items[t]| - pos
  {
    if pos == |T.items[t]| then T.Continues(t) && RefersTo(T, T.link[t], 0, n)
    else T.items[t][pos] == SecRef(n) || RefersTo(T, t, pos + 1, n)
  }

  lemma {:induction false} RefersNests(T: Tables, t: nat, pos: nat, n: nat, k: nat)
    requires T.Valid() && T.IsCode(t) && pos <= |T.items[t]| && RefersTo(T, t, pos, n)
    requires n < |T.equiv| && T.equiv[n] != 0 && Nests(T, T.equiv[n], 0, k)
    ensures Nests(T, t, pos, k + 1)
    decreases |T.items| - t, |T.items[t]| - pos
  {
    if pos == |T.items[t]| {
      RefersNests(T, T.link[t], 0, n, k);
    } else if T.items[t][pos] != SecRef(n) {
      RefersNests(T, t, pos + 1, n, k);
    }
  }

  /** A section that refers to itself overflows every stack; the program halts all the same. */
  lemma {:induction false} SelfReferenceOverflows(T: Tables, n: nat, room: nat)
    requires T.Valid() && n < |T.equiv| && T.equiv[n] != 0 && RefersTo(T, T.equiv[n], 0, n)
    ensures Nests(T, T.equiv[n], 0, room + 1) && !Expand(T, T.equiv[n], 0, 0, room).ok
    decreases room
  {
    if room > 0 { SelfReferenceOverflows(T, n, room - 1); }
    RefersNests(T, T.equiv[n], 0, n, room);
    OverflowExactly(T, T.equiv[n], 0, 0, room);
  }

  // ----- Nesting of the marks -----

  /** Reads the marks in `out` with a stack of open section numbers. */
  ghost function Marks(out: seq<Out>, open: seq<nat>): (r: (seq<nat>, bool))
    decreases |out|
  {
    if out == [] then (open, true)
    else match out[0]
      case Open(n) => Marks(out[1..], open + [n])
      case Close(n) =>
        if open != [] && open[|open| - 1] == n then Marks(out[1..], open[..|open| - 1]) else (open, false)
      case _ => Marks(out[1..], open)
  }

  lemma {:induction false} MarksConcat(a: seq<Out>, b: seq<Out>, open: seq<nat>)
    ensures var (mid, ok) := Marks(a, open); Marks(a + b, open) == if ok then Marks(b, mid) else (mid, false)
    decreases |a|
  {
    if a == [] {
      assert a + b == b;
    } else {
      assert (a + b)[0] == a[0] && (a + b)[1..] == a[1..] + b;
      match a[0]
      case Open(n) => MarksConcat(a[1..], b, open + [n]);
      case Close(n) =>
        if open != [] && open[|open| - 1] == n { MarksConcat(a[1..], b, open[..|open| - 1]); }
      case _ => MarksConcat(a[1..], b, open);
    }
  }

  /** `scan_section` puts the section number in front of every text, and nowhere else. */
  ghost predicate Marked(T: Tables) {
    forall t :: 0 < t < |T.items| && T.IsCode(t) ==>
      0 < |T.items[t]| && T.items[t][0].SecNum? && forall i :: 0 < i < |T.items[t]| ==> !T.items[t][i].SecNum?
  }

  /**
   The marks of a complete expansion are well nested: expanding a name opens and closes
   each of its texts in turn, and finishing a started text closes just that one.
   */
  lemma {:induction false} WellNested(T: Tables, t: nat, pos: nat, section: nat, room: nat, open: seq<nat>)
    requires T.Valid() && Marked(T) && T.IsCode(t) && 0 < t && pos <= |T.items[t]|
    requires pos > 0 ==> section > 0 && open != [] && open[|open| - 1] == section
    requires Expand(T, t, pos, section, room).ok
    ensures Marks(Expand(T, t, pos, section, room).out, open)
         == (if pos > 0 then open[..|open| - 1] else open, true)
    decreases room, |T.items| - t, |T.items[t]| - pos
  {
    if pos == |T.items[t]| {
      var close := [Close(section)];
      assert close[1..] == [];
      if T.Continues(t) {
        WellNested(T, T.link[t], 0, section, room, open[..|open| - 1]);
        MarksConcat(close, Expand(T, T.link[t], 0, section, room).out, open);
      }
    } else {
      var x := T.items[t][pos];
      assert T.ItemOk(x);
      WellNestedItem(T, t, pos, section, room, open);
    }
  }

  lemma MarksCons(x: Out, rest: seq<Out>, open: seq<nat>)
    requires !x.Close?
    ensures Marks([x] + rest, open) == Marks(rest, if x.Open? then open + [x.n] else open)
  {
    assert ([x] + rest)[1..] == rest;
  }

  lemma {:induction false} WellNestedItem(T: Tables, t: nat, pos: nat, section: nat, room: nat, open: seq<nat>)
    requires T.Valid() && Marked(T) && T.IsCode(t) && 0 < t && pos < |T.items[t]|
    requires pos > 0 ==> section > 0 && open != [] && open[|open| - 1] == section
    requires Expand(T, t, pos, section, room).ok
    ensures Marks(Expand(T, t, pos, section, room).out, open)
         == (if pos > 0 then open[..|open| - 1] else open, true)
    decreases room, |T.items| - t, |T.items[t]| - pos, 0
  {
    hide Marks;
    var x := T.items[t][pos];
    assert T.ItemOk(x);
    if pos == 0 {
      var open' := open + [x.n];
      assert x.SecNum? && x.n > 0 && open'[..|open'| - 1] == open;
      WellNested(T, t, 1, x.n, room, open');
      MarksCons(Open(x.n), Expand(T, t, 1, x.n, room).out, open);
    } else {
      assert !x.SecNum?;
      WellNested(T, t, pos + 1, section, room, open);
      var rest := Expand(T, t, pos + 1, section, room).out;
      match x {
        case SecRef(n) =>
          if T.equiv[n] != 0 {
            WellNested(T, T.equiv[n], 0, 0, room - 1, open);
            MarksConcat(Expand(T, T.equiv[n], 0, 0, room - 1).out, rest, open);
          }
        case Defs => MarksCons(DefsBlock, rest, open);
        case _ => MarksCons(Emit(x), rest, open);
      }
    }
  }

  // ----- Recursive substitution -----

  /**
   The text of a section and its continuations, each between its two marks, with every
   section name replaced by the text of that section.
   */
  ghost function Body(T: Tables, rank: map<nat, nat>, t: nat): seq<Out>
    requires T.Valid() && Marked(T) && Acyclic(T, rank) && T.IsCode(t) && 0 < t
    decreases rank[t], |T.items| - t, 1, 0
  {
    var n := T.items[t][0].n;
    [Open(n)] + BodyFrom(T, rank, t, 1) + [Close(n)] + (if T.Continues(t) then Body(T, rank, T.link[t]) else [])
  }

  ghost function BodyFrom(T: Tables, rank: map<nat, nat>, t: nat, pos: nat): seq<Out>
    requires T.Valid() && Marked(T) && Acyclic(T, rank) && T.IsCode(t) && 0 < t && pos <= |T.items[t]|
    decreases rank[t], |T.items| - t, 0, |T.items[t]| - pos
  {
    if pos == |T.items[t]| then [] else BodyItem(T, rank, t, pos) + BodyFrom(T, rank, t, pos + 1)
  }

  ghost function BodyItem(T: Tables, rank: map<nat, nat>, t: nat, pos: nat): seq<Out>
    requires T.Valid() && Marked(T) && Acyclic(T, rank) && T.IsCode(t) && 0 < t && pos < |T.items[t]|
    decreases rank[t], |T.items| - t, 0, |T.items[t]| - pos, 0
  {
    var x := T.items[t][pos];
    assert T.ItemOk(x) && Descends(T, rank, t, x);
    match x
    case SecRef(n) => if T.equiv[n] == 0 then [] else Body(T, rank, T.equiv[n])
    case Defs => [DefsBlock]
    case _ => [Emit(x)]
  }

  /** With a stack as high as the nesting, expansion is recursive substitution. */
  lemma {:induction false} ExpandIsSubstitution(T: Tables, rank: map<nat, nat>, t: nat, section: nat, room: nat)
    requires T.Valid() && Marked(T) && Acyclic(T, rank) && T.IsCode(t) && 0 < t && rank[t] <= room
    ensures Expand(T, t, 0, section, room) == Result(Body(T, rank, t), true)
    decreases rank[t], |T.items| - t, 1, 0
  {
    hide Expand, BodyFrom;
    var n := T.items[t][0].n;
    ExpandTail(T, rank, t, 1, n, room);
    ExpandStart(T, t, section, room);
    var a, b := BodyFrom(T, rank, t, 1), if T.Continues(t) then Body(T, rank, T.link[t]) else [];
    assert [Open(n)] + (a + [Close(n)] + b) == [Open(n)] + a + [Close(n)] + b;
  }

  lemma ExpandStart(T: Tables, t: nat, section: nat, room: nat)
    requires T.Valid() && Marked(T) && T.IsCode(t) && 0 < t
    ensures var n := T.items[t][0].n;
      Expand(T, t, 0, section, room) == Result([Open(n)], true).Then(Expand(T, t, 1, n, room))
  {
  }

  lemma {:induction false} ExpandTail(T: Tables, rank: map<nat, nat>, t: nat, pos: nat, n: nat, room: nat)
    requires T.Valid() && Marked(T) && Acyclic(T, rank) && T.IsCode(t) && 0 < t && 0 < pos <= |T.items[t]|
    requires rank[t] <= room && n > 0
    ensures Expand(T, t, pos, n, room)
         == Result(BodyFrom(T, rank, t, pos) + [Close(n)] + (if T.Continues(t) then Body(T, rank, T.link[t]) else []), true)
    decreases rank[t], |T.items| - t, 0, |T.items[t]| - pos
  {
    if pos == |T.items[t]| {
      if T.Continues(t) { ExpandIsSubstitution(T, rank, T.link[t], n, room); }
      assert [] + [Close(n)] == [Close(n)];
    } else {
      ExpandTail(T, rank, t, pos + 1, n, room);
      ExpandItem(T, rank, t, pos, n, room);
      Regroup(BodyItem(T, rank, t, pos), BodyFrom(T, rank, t, pos + 1), [Close(n)],
              if T.Continues(t) then Body(T, rank, T.link[t]) else []);
    }
  }

  lemma {:induction false} ExpandItem(T: Tables, rank: map<nat, nat>, t: nat, pos: nat, n: nat, room: nat)
    requires T.Valid() && Marked(T) && Acyclic(T, rank) && T.IsCode(t) && 0 < t && 0 < pos < |T.items[t]|
    requires rank[t] <= room && n > 0
    ensures Expand(T, t, pos, n, room) == Result(BodyItem(T, rank, t, pos), true).Then(Expand(T, t, pos + 1, n, room))
    decreases rank[t], |T.items| - t, 0, |T.items[t]| - pos, 0
  {
    var x := T.items[t][pos];
    assert T.ItemOk(x) && Descends(T, rank, t, x);
    if x.SecRef? && T.equiv[x.n] != 0 {
      ExpandIsSubstitution(T, rank, T.equiv[x.n], 0, room - 1);
    }
  }

  lemma Regroup(a: seq<Out>, b: seq<Out>, c: seq<Out>, d: seq<Out>)
    ensures a + (b + c + d) == (a + b) + c + d
  {
  }
}
