/**
 What the change mechanism is for: the lines a well-formed change file makes of a web file
 without includes (cweb/common.c:388-507, 542-605, 673-682).
 */
module ChangeMerge {
  import opened ChangeFile

  /**
   One change: lines to be ignored, @x, blank lines, the lines to be matched, @y, the
   lines that replace them, @z.
   */
  datatype Block = Block(junk: seq<Line>, x: Line, blanks: nat, matched: seq<Line>, y: Line, news: seq<Line>, z: Line)

  ghost predicate NoCode(ls: seq<Line>, c: char) {
    forall i :: 0 <= i < |ls| ==> !IsCode(ls[i], c)
  }

  ghost predicate NoInclude(ls: seq<Line>) {
    forall i :: 0 <= i < |ls| ==> !IsInclude(ls[i]) && !IsInclude(LowerCode(ls[i]))
  }

  ghost predicate WellFormed(b: Block) {
    && NoCode(b.junk, 'x') && IsCode(b.x, 'x')
    && b.matched != [] && b.matched[0] != "" && NoCode(b.matched[1..], 'y')
    && IsCode(b.y, 'y') && NoCode(b.news, 'z') && NoInclude(b.news) && IsCode(b.z, 'z')
  }

  ghost predicate AllWellFormed(blocks: seq<Block>) {
    forall i :: 0 <= i < |blocks| ==> WellFormed(blocks[i])
  }

  function Blanks(n: nat): seq<Line> {
    if n == 0 then [] else [""] + Blanks(n - 1)
  }

  /** What follows the first matched line in the change file. */
  function AfterFirst(b: Block): seq<Line>
    requires b.matched != []
  {
    b.matched[1..] + [b.y] + (b.news + [b.z])
  }

  /** The change file: the blocks in order, then lines without another @x. */
  function Render(blocks: seq<Block>, tail: seq<Line>): seq<Line>
    requires forall i :: 0 <= i < |blocks| ==> blocks[i].matched != []
  {
    if blocks == [] then tail
    else
      var b := blocks[0];
      b.junk + ([b.x] + (Blanks(b.blanks) + ([b.matched[0]] + (AfterFirst(b) + Render(blocks[1..], tail)))))
  }

  /** New lines are delivered with the code letter in lower case. */
  function Lowered(ls: seq<Line>): seq<Line> {
    if ls == [] then [] else [LowerCode(ls[0])] + Lowered(ls[1..])
  }

  /**
   The merged file: the first web line equal to the first matched line of the current
   block starts a span as long as the matched part, which the new lines replace; then it
   is the next block's turn. If the web file ends inside the span, nothing more comes.
   */
  function Merge(web: seq<Line>, blocks: seq<Block>): seq<Line>
    requires forall i :: 0 <= i < |blocks| ==> blocks[i].matched != []
    decreases |web|
  {
    if web == [] then []
    else if blocks == [] || web[0] != blocks[0].matched[0] then [web[0]] + Merge(web[1..], blocks)
    else if |web| < |blocks[0].matched| then []
    else Lowered(blocks[0].news) + Merge(web[|blocks[0].matched|..], blocks[1..])
  }

  /** The blocks that were never matched; or, when the web file ended inside a span, the first line of that block that no
   line of the web file was left for. */
  datatype Unused = Truncated(line: Line) | Blocks(left: seq<Block>)

  function UnusedBlocks(web: seq<Line>, blocks: seq<Block>): (u: Unused)
    requires forall i :: 0 <= i < |blocks| ==> blocks[i].matched != []
    ensures u.Blocks? ==> |u.left| <= |blocks| && u.left == blocks[|blocks| - |u.left|..]
    decreases |web|
  {
    if web == [] then Blocks(blocks)
    else if blocks == [] || web[0] != blocks[0].matched[0] then UnusedBlocks(web[1..], blocks)
    else if |web| < |blocks[0].matched| then Truncated(blocks[0].matched[|web|])
    else UnusedBlocks(web[|blocks[0].matched|..], blocks[1..])
  }

  // ----- Priming -----

  /** A file with these lines left to read. */
  ghost predicate Holds(r: Reader, ls: seq<Line>) {
    r.lines == ls && (r.eof ==> ls == [])
  }

  lemma ReadNext(r: Reader, first: Line, rest: seq<Line>, line: Line)
    requires Holds(r, [first] + rest)
    ensures var (r', l, ok) := Read(r, line); Holds(r', rest) && l == first && ok
  {
    assert ([first] + rest)[1..] == rest;
  }

  lemma {:induction false} FindXRender(r: Reader, junk: seq<Line>, x: Line, rest: seq<Line>, line: Line)
    requires NoCode(junk, 'x') && IsCode(x, 'x') && Holds(r, junk + ([x] + rest))
    ensures FindX(r, line).2 && Holds(FindX(r, line).0, rest)
    decreases |junk|
  {
    var all := junk + ([x] + rest);
    if junk == [] {
      assert all == [x] + rest;
      ReadNext(r, x, rest, line);
    } else {
      assert all == [junk[0]] + (junk[1..] + ([x] + rest));
      ReadNext(r, junk[0], junk[1..] + ([x] + rest), line);
      FindXRender(Read(r, line).0, junk[1..], x, rest, LowerCode(junk[0]));
    }
  }

  lemma {:induction false} FindXNone(r: Reader, tail: seq<Line>, line: Line)
    requires NoCode(tail, 'x') && Holds(r, tail)
    ensures !FindX(r, line).2 && Holds(FindX(r, line).0, [])
    decreases |tail|
  {
    if tail != [] {
      assert tail == [tail[0]] + tail[1..];
      ReadNext(r, tail[0], tail[1..], line);
      FindXNone(Read(r, line).0, tail[1..], LowerCode(tail[0]));
    }
  }

  lemma {:induction false} FindTextRender(r: Reader, n: nat, first: Line, rest: seq<Line>, line: Line)
    requires first != "" && Holds(r, Blanks(n) + ([first] + rest))
    ensures var (r', l, ok) := FindText(r, line); ok && l == first && Holds(r', rest)
    decreases n
  {
    var all := Blanks(n) + ([first] + rest);
    if n > 0 {
      assert all == [""] + (Blanks(n - 1) + ([first] + rest));
      ReadNext(r, "", Blanks(n - 1) + ([first] + rest), line);
      FindTextRender(Read(r, line).0, n - 1, first, rest, "");
    } else {
      assert all == [first] + rest;
      ReadNext(r, first, rest, line);
    }
  }

  /** The web file alone is open, with these lines left. */
  ghost predicate OnlyWeb(st: State, web: seq<Line>) {
    |st.files| == 1 && Holds(st.files[0], web) && NoInclude(web) && !st.ended
  }

  /** Waiting for the first block to match: its first line is in the change buffer. */
  ghost predicate Waiting(st: State, web: seq<Line>, blocks: seq<Block>, tail: seq<Line>) {
    && AllWellFormed(blocks) && NoCode(tail, 'x') && OnlyWeb(st, web) && !st.changing
    && (if blocks == [] then st.changeBuffer == "" && Holds(st.change, [])
        else st.changeBuffer == blocks[0].matched[0] && Holds(st.change, AfterFirst(blocks[0]) + Render(blocks[1..], tail)))
  }

  /** Delivering new lines. */
  ghost predicate Copying(st: State, web: seq<Line>, news: seq<Line>, z: Line, blocks: seq<Block>, tail: seq<Line>) {
    && AllWellFormed(blocks) && NoCode(tail, 'x') && OnlyWeb(st, web)
    && NoCode(news, 'z') && NoInclude(news) && IsCode(z, 'z')
    && st.changing && st.changeDepth == 0
    && Holds(st.change, news + ([z] + Render(blocks, tail)))
  }

  lemma PrimeRender(st: State, web: seq<Line>, blocks: seq<Block>, tail: seq<Line>)
    requires AllWellFormed(blocks) && NoCode(tail, 'x') && OnlyWeb(st, web) && Holds(st.change, Render(blocks, tail))
    ensures Waiting(Prime(st).(changing := false), web, blocks, tail)
  {
    hide FindX, FindText;
    if blocks == [] {
      FindXNone(st.change, tail, st.line);
    } else {
      var b := blocks[0];
      assert WellFormed(b);
      var rest := AfterFirst(b) + Render(blocks[1..], tail);
      FindXRender(st.change, b.junk, b.x, Blanks(b.blanks) + ([b.matched[0]] + rest), st.line);
      var (c, l, ok) := FindX(st.change, st.line);
      FindTextRender(c, b.blanks, b.matched[0], rest, l);
    }
  }

  // ----- Codes -----

  /** A code is an at sign and its letter in either case; nothing else of a line is looked at. */
  lemma CodeMeans(l: Line)
    ensures IsCode(l, 'x') <==> "@x" <= l || "@X" <= l
    ensures IsCode(l, 'y') <==> "@y" <= l || "@Y" <= l
    ensures IsCode(l, 'z') <==> "@z" <= l || "@Z" <= l
    ensures IsInclude(l) <==> "@i" <= l || "@I" <= l
  {
  }

  /** A line is delivered as it is, but for a capital behind an at sign in front, which is made small. */
  lemma LoweredMeans(l: Line)
    ensures |LowerCode(l)| == |l| && forall i :: 0 <= i < |l| && i != 1 ==> LowerCode(l)[i] == l[i]
    ensures |l| >= 2 && l[0] == '@' && 'A' <= l[1] <= 'Z' ==>
      'a' <= LowerCode(l)[1] <= 'z' && LowerCode(l)[1] as int - 'a' as int == l[1] as int - 'A' as int
    ensures |l| < 2 || l[0] != '@' || !('A' <= l[1] <= 'Z') ==> LowerCode(l) == l
  {
  }

  // ----- Swallowing -----

  lemma LowerCodeIs(l: Line, c: char)
    ensures 'a' <= c <= 'z' ==> (IsCode(LowerCode(l), c) <==> IsCode(l, c))
  {
  }

  /** Reading the web file when no other is open. */
  lemma NextWebOnly(files: seq<Reader>, web: seq<Line>, line: Line)
    requires |files| == 1 && Holds(files[0], web)
    ensures web == [] ==> !NextWeb(files, line).2
    ensures web != [] ==>
      var (files', l, ok) := NextWeb(files, line); |files'| == 1 && Holds(files'[0], web[1..]) && l == web[0] && ok
  {
  }

  /** The matched part is passed over in both files, or the web file ends first. */
  lemma {:induction false} SwallowMatched(st: State, web: seq<Line>, matched: seq<Line>, y: Line, rest: seq<Line>)
    requires NoCode(matched, 'y') && IsCode(y, 'y') && OnlyWeb(st, web) && Holds(st.change, matched + ([y] + rest))
    ensures |matched| <= |web| ==>
      var st' := Swallow(st);
      OnlyWeb(st', web[|matched|..]) && Holds(st'.change, rest) && st'.changing && st'.changeDepth == 0
    ensures |web| < |matched| ==> Swallow(st).ended && Swallow(st).changeBuffer == LowerCode(matched[|web|])
    decreases |matched|
  {
    hide NextWeb, IsInclude, LowerCode, IsCode, Read;
    if matched == [] {
      assert matched + ([y] + rest) == [y] + rest && web[0..] == web;
      ReadNext(st.change, y, rest, st.line);
      LowerCodeIs(y, 'y');
    } else {
      assert matched + ([y] + rest) == [matched[0]] + (matched[1..] + ([y] + rest));
      ReadNext(st.change, matched[0], matched[1..] + ([y] + rest), st.line);
      LowerCodeIs(matched[0], 'y');
      var code := LowerCode(matched[0]);
      NextWebOnly(st.files, web, code);
      var (files, l, ok) := NextWeb(st.files, code);
      if ok {
        var st1 := st.(change := Read(st.change, st.line).0, changeBuffer := code, changing := false, files := files, line := l);
        SwallowMatched(st1, web[1..], matched[1..], y, rest);
        if |matched| <= |web| { assert web[1..][|matched[1..]|..] == web[|matched|..]; }
      }
    }
  }

  // ----- The passes -----

  lemma TakeWebOnly(st: State, web: seq<Line>)
    requires OnlyWeb(st, web)
    ensures var s := TakeWeb(st);
      && s.change == st.change && s.changing == st.changing && s.changeBuffer == st.changeBuffer && s.changeDepth == st.changeDepth
      && (if web == [] then s.ended else OnlyWeb(s, web[1..]) && s.line == web[0])
  {
  }

  /** A waiting state reads the web file. */
  lemma WaitingPass(st: State, web: seq<Line>, blocks: seq<Block>, tail: seq<Line>)
    requires Waiting(st, web, blocks, tail)
    ensures web == [] ==> Pass(st).0.ended && Pass(st).0.changeBuffer == st.changeBuffer
    ensures web != [] && (blocks == [] || web[0] != blocks[0].matched[0]) ==>
      && Waiting(Pass(st).0, web[1..], blocks, tail) && !Pass(st).1 && Pass(st).0.line == web[0]
    ensures web != [] && blocks != [] && web[0] == blocks[0].matched[0] ==>
      var b := blocks[0];
      && (|web| < |b.matched| ==> Pass(st).0.ended && Pass(st).0.changeBuffer == LowerCode(b.matched[|web|]))
      && (|b.matched| <= |web| ==>
            Pass(st).1 && Copying(Pass(st).0, web[|b.matched|..], b.news, b.z, blocks[1..], tail))
  {
    hide TakeWeb, Swallow, IsInclude, LowerCode, IsCode;
    TakeWebOnly(st, web);
    TakeWebOpen(st);
    if web != [] && blocks != [] {
      var b := blocks[0];
      assert WellFormed(b);
      if web[0] == b.matched[0] {
        var rest := b.news + ([b.z] + Render(blocks[1..], tail));
        assert AfterFirst(b) + Render(blocks[1..], tail) == b.matched[1..] + ([b.y] + rest);
        SwallowMatched(TakeWeb(st), web[1..], b.matched[1..], b.y, rest);
        if |b.matched| <= |web| { assert web[1..][|b.matched[1..]|..] == web[|b.matched|..]; }
      }
    }
  }

  /** A copying state delivers its next new line, or turns into a waiting one. */
  lemma CopyingPass(st: State, web: seq<Line>, news: seq<Line>, z: Line, blocks: seq<Block>, tail: seq<Line>)
    requires Copying(st, web, news, z, blocks, tail)
    ensures news != [] ==>
      && Copying(Pass(st).0, web, news[1..], z, blocks, tail) && !Pass(st).1 && Pass(st).0.line == LowerCode(news[0])
    ensures news == [] ==> Waiting(ReadChange(st), web, blocks, tail) && Pass(st) == Pass(ReadChange(st))
  {
    hide ReadWeb, Prime, Read, LowerCode, IsCode;
    if news == [] {
      assert news + ([z] + Render(blocks, tail)) == [z] + Render(blocks, tail);
      ReadNext(st.change, z, Render(blocks, tail), st.line);
      LowerCodeIs(z, 'z');
      PrimeRender(st.(change := Read(st.change, st.line).0, line := LowerCode(z)), web, blocks, tail);
    } else {
      var rest := news[1..] + ([z] + Render(blocks, tail));
      assert news + ([z] + Render(blocks, tail)) == [news[0]] + rest;
      ReadNext(st.change, news[0], rest, st.line);
      LowerCodeIs(news[0], 'z');
    }
  }

  /** Two states that pass alike are read from alike. */
  lemma SamePass(a: State, b: State, fs: Files, w: nat)
    requires Bounded(a, fs, w) && Bounded(b, fs, w) && Pass(a) == Pass(b)
    ensures Delivered(a, fs, w) == Delivered(b, fs, w) && Final(a, fs, w) == Final(b, fs, w)
  {
    hide Pass, OpenInclude;
    assert Reach(a, fs, w) == Reach(b, fs, w);
  }

  /** Looking through a pass that starts over. */
  lemma PassAgain(st: State, fs: Files, w: nat)
    requires Bounded(st, fs, w) && Pass(st).1
    ensures Bounded(Pass(st).0, fs, w) && Measure(Pass(st).0, w) < Measure(st, w)
    ensures Delivered(st, fs, w) == Delivered(Pass(st).0, fs, w) && Final(st, fs, w) == Final(Pass(st).0, fs, w)
  {
    hide Pass, OpenInclude;
    PassDrops(st, w);
    assert Reach(st, fs, w) == Reach(Pass(st).0, fs, w);
  }

  /** A pass that delivers. */
  lemma PassDelivers(st: State, fs: Files, w: nat)
    requires Bounded(st, fs, w) && !Pass(st).1 && !Pass(st).0.ended && !IsInclude(Pass(st).0.line)
    ensures Bounded(Pass(st).0, fs, w) && Measure(Pass(st).0, w) < Measure(st, w)
    ensures Delivered(st, fs, w) == [Pass(st).0.line] + Delivered(Pass(st).0, fs, w)
    ensures Final(st, fs, w) == Final(Pass(st).0, fs, w)
  {
    hide Pass, OpenInclude;
    PassDrops(st, w);
    WeightBelow(w, Pass(st).0.Depth());
    assert Reach(st, fs, w) == Returned(Pass(st).0);
  }

  /** A pass that finds the end. */
  lemma PassEnds(st: State, fs: Files, w: nat)
    requires Bounded(st, fs, w) && !st.ended && Pass(st).0.ended
    ensures Delivered(st, fs, w) == [] && Final(st, fs, w) == Pass(st).0
  {
    hide Pass, OpenInclude;
    PassDrops(st, w);
  }

  /** The line that is left in change_buffer at the end, and that `check_complete` complains about if it is not empty. */
  function LeftOver(unused: Unused): Line
    requires unused.Blocks? ==> forall i :: 0 <= i < |unused.left| ==> unused.left[i].matched != []
  {
    match unused
    case Truncated(line) => LowerCode(line)
    case Blocks(left) => if left == [] then "" else left[0].matched[0]
  }

  /**
   Change-file merging is correct: without includes, the lines delivered are the web file
   with each block's span replaced, in order; and change_buffer is left with the first line
   of the first block that was never matched, or with the line at which the web file ended
   inside a span.
   */
  lemma {:induction false} MergeCorrect(st: State, web: seq<Line>, blocks: seq<Block>, tail: seq<Line>, fs: Files, w: nat)
    requires Waiting(st, web, blocks, tail) && Bounded(st, fs, w)
    ensures forall i :: 0 <= i < |blocks| ==> blocks[i].matched != []
    ensures Delivered(st, fs, w) == Merge(web, blocks)
    ensures Final(st, fs, w).changeBuffer == LeftOver(UnusedBlocks(web, blocks))
    decreases Measure(st, w)
  {
    hide Pass, Delivered, Final, Measure;
    assert forall i :: 0 <= i < |blocks| ==> WellFormed(blocks[i]);
    WaitingPass(st, web, blocks, tail);
    var st1 := Pass(st).0;
    if web == [] {
      PassEnds(st, fs, w);
    } else if blocks == [] || web[0] != blocks[0].matched[0] {
      PassDelivers(st, fs, w);
      MergeCorrect(st1, web[1..], blocks, tail, fs, w);
    } else {
      var b := blocks[0];
      if |web| < |b.matched| {
        PassEnds(st, fs, w);
      } else {
        PassAgain(st, fs, w);
        CopyCorrect(st1, web[|b.matched|..], b.news, b.z, blocks[1..], tail, fs, w);
      }
    }
  }

  lemma {:induction false} CopyCorrect(st: State, web: seq<Line>, news: seq<Line>, z: Line, blocks: seq<Block>,
                                       tail: seq<Line>, fs: Files, w: nat)
    requires Copying(st, web, news, z, blocks, tail) && Bounded(st, fs, w)
    ensures forall i :: 0 <= i < |blocks| ==> blocks[i].matched != []
    ensures Delivered(st, fs, w) == Lowered(news) + Merge(web, blocks)
    ensures Final(st, fs, w).changeBuffer == LeftOver(UnusedBlocks(web, blocks))
    decreases Measure(st, w)
  {
    hide Pass, Delivered, Final, Measure, ReadChange;
    assert forall i :: 0 <= i < |blocks| ==> WellFormed(blocks[i]);
    CopyingPass(st, web, news, z, blocks, tail);
    if news == [] {
      ReadChangeDrops(st, w);
      PowPositive(w, MAX_INCLUDE_DEPTH);
      var st1 := ReadChange(st);
      SamePass(st, st1, fs, w);
      MergeCorrect(st1, web, blocks, tail, fs, w);
    } else {
      PassDelivers(st, fs, w);
      CopyCorrect(Pass(st).0, web, news[1..], z, blocks, tail, fs, w);
    }
  }

  /** The lines of a file, less a blank last line without a line end. */
  ghost predicate Written(f: File, ls: seq<Line>) {
    if f.torn && f.lines != [] && f.lines[|f.lines| - 1] == "" then f.lines == ls + [""] else f.lines == ls
  }

  lemma WrittenOpen(f: File, ls: seq<Line>)
    requires Written(f, ls)
    ensures Open(f).lines == ls && !Open(f).eof
  {
  }

  /** From the beginning: any web file without includes, any well-formed change file, whether or not they end with a line end. */
  lemma MergeFromStart(web: File, ls: seq<Line>, change: File, blocks: seq<Block>, tail: seq<Line>, fs: Files, w: nat)
    requires AllWellFormed(blocks) && NoCode(tail, 'x') && NoInclude(ls)
    requires Written(web, ls) && Written(change, Render(blocks, tail))
    requires 2 <= w && forall name :: name in fs ==> |fs[name].lines| + 2 <= w
    ensures forall i :: 0 <= i < |blocks| ==> blocks[i].matched != []
    ensures var st := Start(web, change);
      && Bounded(st, fs, w)
      && Delivered(st, fs, w) == Merge(ls, blocks)
      && Final(st, fs, w).changeBuffer == LeftOver(UnusedBlocks(ls, blocks))
  {
    hide Prime, Open;
    assert forall i :: 0 <= i < |blocks| ==> WellFormed(blocks[i]);
    WrittenOpen(web, ls);
    WrittenOpen(change, Render(blocks, tail));
    StartBounded(web, change, fs, w);
    var st0 := State([Open(web)], Open(change), true, 0, "", false, "");
    PrimeRender(st0, ls, blocks, tail);
    var st := Start(web, change);
    assert Waiting(st, ls, blocks, tail);
    MergeCorrect(st, ls, blocks, tail, fs, w);
  }

  /** Reading a web file to its end, if the calls return, and `check_complete`. */
  method ReadToEnd(web: File, change: File, fs: Files, ghost w: nat) returns (lines: seq<Line>, complaint: bool)
    requires 2 <= w && forall name :: name in fs ==> |fs[name].lines| + 2 <= w
    requires Bounded(Start(web, change), fs, w) && AllHalt(Start(web, change), fs, w)
    ensures lines == Delivered(Start(web, change), fs, w)
    ensures complaint <==> Final(Start(web, change), fs, w).changeBuffer != ""
  {
    hide Reach, RunFor, Halts, Stuck, AllHalt, Delivered, Final, Measure, Start, Bounded;
    var input := new Input(web, change);
    ghost var st := input.S();
    lines := [];
    var more := true;
    while more
      invariant Bounded(st, fs, w) && Bounded(input.S(), fs, w) && st == Start(web, change)
      invariant more ==> lines + Delivered(input.S(), fs, w) == Delivered(st, fs, w) && AllHalt(input.S(), fs, w)
      invariant more ==> Final(input.S(), fs, w) == Final(st, fs, w)
      invariant !more ==> lines == Delivered(st, fs, w) && input.changeBuffer == Final(st, fs, w).changeBuffer
      decreases more, Measure(input.S(), w)
    {
      ghost var before := input.S();
      CallStep(before, fs, w);
      more := input.GetLine(fs);
      ghost var n: nat :| RunFor(before, fs, n) == Returned(input.S());
      CallResult(before, fs, w, input.S(), n);
      if more { lines := lines + [input.line]; }
    }
    complaint := input.CheckComplete();
  }

  /** So the lines are the merged file; and it complains if and only if a block was never matched, or the web file ended
   inside a span before a line that is not blank. */
  method ReadAll(web: File, ghost ls: seq<Line>, change: File, ghost blocks: seq<Block>, ghost tail: seq<Line>, fs: Files,
                 ghost w: nat)
      returns (lines: seq<Line>, complaint: bool)
    requires AllWellFormed(blocks) && NoCode(tail, 'x') && NoInclude(ls)
    requires Written(web, ls) && Written(change, Render(blocks, tail))
    requires 2 <= w && forall name :: name in fs ==> |fs[name].lines| + 2 <= w
    requires Bounded(Start(web, change), fs, w) && AllHalt(Start(web, change), fs, w)
    ensures forall i :: 0 <= i < |blocks| ==> blocks[i].matched != []
    ensures lines == Merge(ls, blocks)
    ensures complaint <==>
      match UnusedBlocks(ls, blocks)
      case Blocks(left) => left != []
      case Truncated(line) => line != ""
  {
    hide AllHalt, Delivered, Final, Measure, Start, Merge, Bounded;
    MergeFromStart(web, ls, change, blocks, tail, fs, w);
    lines, complaint := ReadToEnd(web, change, fs, w);
    assert forall i :: 0 <= i < |blocks| ==> WellFormed(blocks[i]);
  }

  lemma CallStep(st: State, fs: Files, w: nat)
    requires Bounded(st, fs, w) && AllHalt(st, fs, w)
    ensures st.files != [] && Halts(st, fs) && Bounded(Reach(st, fs, w).st, fs, w)
    ensures var s := Reach(st, fs, w).st;
      && Delivered(st, fs, w) == (if s.ended then [] else [s.line] + Delivered(s, fs, w))
      && Final(st, fs, w) == (if s.ended then s else Final(s, fs, w))
      && (!s.ended ==> AllHalt(s, fs, w) && Measure(s, w) < Measure(st, w))
  {
    hide Reach, Measure, Halts, Stuck;
    ReachDrops(st, fs, w);
    HaltsExactly(st, fs, w);
  }
}
