/**
 What include lines are for: the lines that are delivered when no change matches
 (cweb/common.c:582-667).
 */
module ChangeInclude {
  import opened ChangeFile
  import opened ChangeMerge

  // ----- The name of the file -----

  /** Blanks, tabs and quotes. */
  ghost predicate Gap(s: Line) {
    forall i :: 0 <= i < |s| ==> s[i] in " \t\""
  }

  ghost predicate Solid(s: Line) {
    forall i :: 0 <= i < |s| ==> s[i] !in " \t\""
  }

  /** The file is named by the first word, quoted or not; what follows does not matter. */
  lemma {:induction false} NameMeans(code: Line, gap: Line, name: Line, rest: Line)
    requires |code| == 2 && Gap(gap) && Solid(name) && (rest == "" || rest[0] in " \t\"")
    requires name == "" ==> rest == ""
    ensures IncludeName(code + gap + name + rest) == name
  {
    assert (code + gap + name + rest)[2..] == gap + (name + rest);
    SkipsGap(gap, name + rest);
    WordOf(name, rest);
  }

  lemma {:induction false} SkipsGap(gap: Line, s: Line)
    requires Gap(gap) && (s == "" || s[0] !in " \t\"")
    ensures SkipGaps(gap + s) == s
  {
    if gap == "" {
      assert gap + s == s;
    } else {
      assert (gap + s)[1..] == gap[1..] + s;
      SkipsGap(gap[1..], s);
    }
  }

  lemma {:induction false} WordOf(name: Line, rest: Line)
    requires Solid(name) && (rest == "" || rest[0] in " \t\"")
    ensures Word(name + rest) == name
  {
    if name == "" {
      assert name + rest == rest;
    } else {
      assert (name + rest)[1..] == name[1..] + rest;
      WordOf(name[1..], rest);
    }
  }

  // ----- Recursive expansion -----

  /**
   The lines of a file at depth d, with each include line replaced by the lines of the file it
   names, down to depth 9, that is ten files deep; and by nothing if that cannot be opened.
   */
  ghost function Expansion(fs: Files, lines: seq<Line>, d: nat): seq<Line>
    requires d < 10
    decreases 10 - d, |lines|
  {
    if lines == [] then [] else Included(fs, lines[0], d) + Expansion(fs, lines[1..], d)
  }

  ghost function Included(fs: Files, l: Line, d: nat): seq<Line>
    requires d < 10
    decreases 10 - d, 0
  {
    if !("@i" <= l || "@I" <= l) then [l]
    else if d < 9 && IncludeName(l) != "" && IncludeName(l) in fs then Expansion(fs, fs[IncludeName(l)].lines, d + 1)
    else []
  }

  /** What the open files still have to give, the innermost first. */
  ghost function Pending(fs: Files, files: seq<Reader>): seq<Line>
    requires |files| <= 10
  {
    if files == [] then []
    else Expansion(fs, files[|files| - 1].lines, |files| - 1) + Pending(fs, files[..|files| - 1])
  }

  // ----- Reading -----

  /** No line of these starts a change. */
  ghost predicate Unmatched(lines: seq<Line>, changeBuffer: Line) {
    changeBuffer == "" || forall i :: 0 <= i < |lines| ==> lines[i] != changeBuffer
  }

  ghost predicate Whole(f: File, changeBuffer: Line) {
    !f.torn && Unmatched(f.lines, changeBuffer)
  }

  ghost predicate WholeReader(r: Reader, changeBuffer: Line) {
    !r.torn && (r.eof ==> r.lines == []) && Unmatched(r.lines, changeBuffer)
  }

  /** All files end with a line end, and no change will match. */
  ghost predicate Plainly(st: State, fs: Files) {
    && !st.changing && !st.ended && st.files != []
    && (forall i :: 0 <= i < |st.files| ==> WholeReader(st.files[i], st.changeBuffer))
    && forall name :: name in fs ==> Whole(fs[name], st.changeBuffer)
  }

  lemma PendingTop(fs: Files, below: seq<Reader>, r: Reader)
    requires |below| < 10
    ensures Pending(fs, below + [r]) == Expansion(fs, r.lines, |below|) + Pending(fs, below)
  {
    assert (below + [r])[..|below|] == below;
  }

  /** The next line is read, finished files being closed; or everything has been read. */
  lemma {:induction false} TakesNext(st: State, fs: Files)
    requires Plainly(st, fs) && |st.files| <= 10
    ensures var s := TakeWeb(st);
      if s.ended then Pending(fs, st.files) == []
      else
        && Plainly(s, fs) && |s.files| <= |st.files| && s.changeBuffer == st.changeBuffer
        && (s.changeBuffer == "" || s.line != s.changeBuffer)
        && Pending(fs, st.files) == Included(fs, s.line, s.Depth()) + Pending(fs, s.files)
    decreases |st.files|
  {
    hide Included, Expansion, IsInclude;
    var d := |st.files| - 1;
    var below, r := st.files[..d], st.files[d];
    assert st.files == below + [r];
    PendingTop(fs, below, r);
    if r.lines != [] {
      var r' := Read(r, st.line).0;
      assert st.files[d := r'] == below + [r'];
      ExpansionFirst(fs, r.lines, d);
      PendingTop(fs, below, r');
      assert WholeReader(r', st.changeBuffer);
      Associative(Included(fs, r.lines[0], d), Expansion(fs, r'.lines, d), Pending(fs, below));
    } else {
      ExpansionNone(fs, r.lines, d);
      if d > 0 { TakesNext(st.(files := below, line := Read(r, st.line).1), fs); } else { PendingNone(fs, below); }
    }
  }

  lemma ExpansionFirst(fs: Files, lines: seq<Line>, d: nat)
    requires lines != [] && d < 10
    ensures Expansion(fs, lines, d) == Included(fs, lines[0], d) + Expansion(fs, lines[1..], d)
  {
  }

  lemma ExpansionNone(fs: Files, lines: seq<Line>, d: nat)
    requires lines == [] && d < 10
    ensures Expansion(fs, lines, d) == []
  {
  }

  lemma PendingNone(fs: Files, files: seq<Reader>)
    requires files == []
    ensures Pending(fs, files) == []
  {
  }

  lemma Associative(a: seq<Line>, b: seq<Line>, c: seq<Line>)
    ensures a + b + c == a + (b + c)
  {
  }

  /** A pass then does just that. */
  lemma PassTakes(st: State, fs: Files)
    requires Plainly(st, fs) && |st.files| <= 10
    ensures Pass(st) == (TakeWeb(st), false)
  {
    hide TakeWeb, Swallow, Pending;
    TakesNext(st, fs);
    TakeWebOpen(st);
    TakeWebChanging(st);
  }

  lemma {:induction false} TakeWebChanging(st: State)
    requires st.files != [] && !st.changing
    ensures TakeWeb(st).changing == false && TakeWeb(st).changeBuffer == st.changeBuffer
    decreases |st.files|
  {
    var d := |st.files| - 1;
    var (r, l, ok) := Read(st.files[d], st.line);
    if !ok && d > 0 { TakeWebChanging(st.(files := st.files[..d], line := l)); }
  }

  /** An include line opens its file, if it can, and that is read next. */
  lemma OpensNext(st: State, fs: Files)
    requires Plainly(st, fs) && |st.files| <= 10 && IsInclude(st.line)
    ensures var s := OpenInclude(st, fs);
      && Plainly(s, fs) && |s.files| <= 10
      && Pending(fs, s.files) == Included(fs, st.line, st.Depth()) + Pending(fs, st.files)
  {
    hide Expansion, IncludeName;
    CodeMeans(st.line);
    if CanOpen(fs, st.line, st.Depth()) {
      var f := fs[IncludeName(st.line)];
      assert Whole(f, st.changeBuffer) && Open(f) == Reader(f.lines, false, false);
      PendingTop(fs, st.files, Open(f));
    } else {
      assert [] + Pending(fs, st.files) == Pending(fs, st.files);
    }
  }

  /** With an include line the call goes on. */
  lemma PassIncludes(st: State, fs: Files, w: nat)
    requires Bounded(st, fs, w) && !Pass(st).1 && !Pass(st).0.ended && IsInclude(Pass(st).0.line)
    ensures var s := OpenInclude(Pass(st).0, fs);
      Bounded(s, fs, w) && Measure(s, w) < Measure(st, w) && Delivered(st, fs, w) == Delivered(s, fs, w)
  {
    hide Pass, OpenInclude, IsInclude;
    PassDrops(st, w);
    var st1 := Pass(st).0;
    OpenDrops(st1, fs, w);
    assert Reach(st, fs, w) == Reach(OpenInclude(st1, fs), fs, w);
  }

  /** The lines delivered are the recursive expansion of what the open files have left. */
  lemma {:induction false} IncludesExpand(st: State, fs: Files, w: nat)
    requires Bounded(st, fs, w) && Plainly(st, fs)
    ensures Delivered(st, fs, w) == Pending(fs, st.files)
    decreases Measure(st, w)
  {
    hide Measure, Delivered, TakeWeb, OpenInclude, Included, Pending, IsInclude, Pass;
    PassTakes(st, fs);
    TakesNext(st, fs);
    var st1 := TakeWeb(st);
    if st1.ended {
      PassEnds(st, fs, w);
    } else if IsInclude(st1.line) {
      PassIncludes(st, fs, w);
      OpensNext(st1, fs);
      IncludesExpand(OpenInclude(st1, fs), fs, w);
    } else {
      PassDelivers(st, fs, w);
      IncludesExpand(st1, fs, w);
      NotIncluded(fs, st1.line, st1.Depth());
    }
  }

  lemma NotIncluded(fs: Files, l: Line, d: nat)
    requires d < 10 && !IsInclude(l)
    ensures Included(fs, l, d) == [l]
  {
    CodeMeans(l);
  }

  /**
   From the start: if all files end with a line end and no line starts a change, the lines
   delivered are the recursive expansion of the web file.
   */
  lemma IncludesFromStart(web: File, change: File, fs: Files, w: nat)
    requires 2 <= w && forall name :: name in fs ==> |fs[name].lines| + 2 <= w
    requires Whole(web, Start(web, change).changeBuffer)
    requires forall name :: name in fs ==> Whole(fs[name], Start(web, change).changeBuffer)
    ensures var st := Start(web, change);
      Bounded(st, fs, w) && AllHalt(st, fs, w) && Delivered(st, fs, w) == Expansion(fs, web.lines, 0)
  {
    hide Start, Delivered, AllHalt, Bounded, Pending, Plainly, Whole, Expansion;
    StartBounded(web, change, fs, w);
    StartPlainly(web, change, fs);
    var st := Start(web, change);
    IncludesExpand(st, fs, w);
    var r := Reader(web.lines, false, false);
    PendingTop(fs, [], r);
    assert [] + [r] == [r];
    PendingNone(fs, []);
  }

  lemma StartPlainly(web: File, change: File, fs: Files)
    requires Whole(web, Start(web, change).changeBuffer)
    requires forall name :: name in fs ==> Whole(fs[name], Start(web, change).changeBuffer)
    ensures Plainly(Start(web, change), fs) && Start(web, change).files == [Reader(web.lines, false, false)] && !Open(web).torn
  {
    hide Prime;
    PrimeShrinks(State([Open(web)], Open(change), true, 0, "", false, ""));
  }

  /** A change file without an @x line starts no change. */
  lemma {:induction false} NoChange(web: File, change: File)
    requires NoCode(change.lines, 'x')
    ensures Start(web, change).changeBuffer == ""
  {
    hide FindX;
    var r := Open(change);
    FindXNone(r, r.lines, "");
  }

  /** Reading such files to the end. */
  method ReadIncluded(web: File, change: File, fs: Files, ghost w: nat) returns (lines: seq<Line>)
    requires 2 <= w && forall name :: name in fs ==> |fs[name].lines| + 2 <= w
    requires Whole(web, Start(web, change).changeBuffer)
    requires forall name :: name in fs ==> Whole(fs[name], Start(web, change).changeBuffer)
    ensures lines == Expansion(fs, web.lines, 0)
  {
    hide Start, Delivered, AllHalt, Expansion, Whole;
    IncludesFromStart(web, change, fs, w);
    var complaint;
    lines, complaint := ReadToEnd(web, change, fs, w);
  }
}
