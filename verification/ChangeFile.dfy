/**
 Reading a web file through a change file and include files (cweb/common.c:366-507,
 542-682). Files are sequences of lines without their trailing blanks.
 */
module ChangeFile {
  type Line = string

  const MAX_INCLUDE_DEPTH := 10

  /** A file; it is torn if there is no line end after its last line. */
  datatype File = File(lines: seq<Line>, torn: bool)

  /** An open file: the lines left, and whether its end has been met (`feof`). */
  datatype Reader = Reader(lines: seq<Line>, torn: bool, eof: bool)

  /** The file system: `fopen` under the given name or in CWEBINPUTS. */
  type Files = map<string, File>

  /** What is left of each open file (depth 0 first) and of the change file; line is what the buffer holds. */
  datatype State = State(files: seq<Reader>, change: Reader, changing: bool, changeDepth: nat,
                         changeBuffer: Line, ended: bool, line: Line)
  {
    function Depth(): int {
      |files| - 1
    }
  }

  /** A blank last line without a line end is not delivered, so it might as well not be there. */
  function Open(f: File): Reader {
    if f.torn && f.lines != [] && f.lines[|f.lines| - 1] == "" then Reader(f.lines[..|f.lines| - 1], false, false)
    else Reader(f.lines, f.torn, false)
  }

  /**
   `input_ln` (cweb/common.c:366-383). Once the end of a file has been met, which in a torn
   file is when its last line is read, a further call leaves the buffer as it is.
   */
  function Read(r: Reader, line: Line): (Reader, Line, bool) {
    if r.eof then (r, line, false)
    else if r.lines == [] then (r.(eof := true), "", false)
    else (Reader(r.lines[1..], r.torn, r.torn && |r.lines| == 1), r.lines[0], true)
  }

  // ----- Control codes -----

  function ToLower(c: char): char {
    if 'A' <= c <= 'Z' then (c as int - 'A' as int + 'a' as int) as char else c
  }

  /** The code letter of a line that starts with @ is made lower case in the buffer. */
  function LowerCode(l: Line): Line {
    if |l| >= 2 && l[0] == '@' then l[1 := ToLower(l[1])] else l
  }

  predicate IsCode(l: Line, c: char) {
    |l| >= 2 && l[0] == '@' && ToLower(l[1]) == c
  }

  predicate IsInclude(l: Line) {
    |l| >= 2 && l[0] == '@' && (l[1] == 'i' || l[1] == 'I')
  }

  predicate IsGap(c: char) {
    c == ' ' || c == '\t' || c == '"'
  }

  function SkipGaps(l: Line): Line {
    if l != [] && IsGap(l[0]) then SkipGaps(l[1..]) else l
  }

  function Word(l: Line): Line {
    if l != [] && !IsGap(l[0]) then [l[0]] + Word(l[1..]) else []
  }

  function IncludeName(l: Line): Line {
    if |l| < 2 then [] else Word(SkipGaps(l[2..]))
  }

  // ----- The routines as functions of the state -----

  /** Past the next @x line of the change file; false if there is none. */
  function FindX(change: Reader, line: Line): (Reader, Line, bool)
    decreases |change.lines|
  {
    var (c, l, ok) := Read(change, line);
    if !ok then (c, l, false)
    else if IsCode(l, 'x') then (c, LowerCode(l), true)
    else FindX(c, LowerCode(l))
  }

  /** The next line that is not blank. */
  function FindText(change: Reader, line: Line): (Reader, Line, bool)
    decreases |change.lines|
  {
    var (c, l, ok) := Read(change, line);
    if ok && l == "" then FindText(c, l) else (c, l, ok)
  }

  /** `prime_the_change_buffer`: the first nonblank line after @x, or nothing. */
  function Prime(st: State): State {
    var (c, l, ok) := FindX(st.change, st.line);
    if !ok then st.(change := c, line := l, changeBuffer := "")
    else
      var (c', l', ok') := FindText(c, l);
      st.(change := c', line := l', changeBuffer := if ok' then l' else "")
  }

  /** The next line of the innermost file that still has one; those that end are closed. */
  function NextWeb(files: seq<Reader>, line: Line): (seq<Reader>, Line, bool)
    requires files != []
    decreases |files|
  {
    var d := |files| - 1;
    var (r, l, ok) := Read(files[d], line);
    if ok || d == 0 then (files[d := r], l, ok) else NextWeb(files[..d], l)
  }

  /** The loop of `check_change`, once the first line has matched. */
  function Swallow(st: State): State
    requires st.files != []
    decreases |st.change.lines|
  {
    var (c, l, ok) := Read(st.change, st.line);
    if !ok then st.(change := c, line := l, changing := false, changeBuffer := "")
    else
      var code := LowerCode(l);
      if IsCode(code, 'y') then st.(change := c, line := code, changing := true, changeDepth := |st.files| - 1)
      else
        var (files, web, found) := NextWeb(st.files, code);
        NextWebOpen(st.files, code);
        var st1 := st.(change := c, changeBuffer := code, changing := false, files := files, line := web);
        if found then Swallow(st1) else st1.(ended := true)
  }

  lemma NextWebOpen(files: seq<Reader>, line: Line)
    requires files != []
    ensures 1 <= |NextWeb(files, line).0| <= |files|
    decreases |files|
  {
    var d := |files| - 1;
    if d > 0 { NextWebOpen(files[..d], Read(files[d], line).1); }
  }

  /** A line of the change file (cweb/common.c:545-571). */
  function ReadChange(st: State): State {
    var (c, l, ok) := Read(st.change, st.line);
    var code := if ok then LowerCode(l) else "@z";
    var st1 := st.(change := c, line := code);
    if IsCode(code, 'z') then Prime(st1).(changing := false) else st1
  }

  /** The part of the web reader that closes finished files (cweb/common.c:582-593). */
  function TakeWeb(st: State): State
    requires st.files != []
    decreases |st.files|
  {
    var d := |st.files| - 1;
    var (r, l, ok) := Read(st.files[d], st.line);
    if ok then st.(files := st.files[d := r], line := l)
    else if d == 0 then st.(files := [r], line := l, ended := true)
    else
      var st1 := st.(files := st.files[..d], line := l);
      if FromChange(st1) then st1 else TakeWeb(st1)
  }

  lemma TakeWebOpen(st: State)
    requires st.files != []
    ensures 1 <= |TakeWeb(st).files| <= |st.files|
    decreases |st.files|
  {
    var d := |st.files| - 1;
    if d > 0 {
      var st1 := st.(files := st.files[..d], line := Read(st.files[d], st.line).1);
      if !FromChange(st1) { TakeWebOpen(st1); }
    }
  }

  function ReadWeb(st: State): State
    requires st.files != []
  {
    TakeWebOpen(st);
    var st1 := TakeWeb(st);
    if !st1.changing && !st1.ended && st1.changeBuffer != "" && st1.line == st1.changeBuffer then Swallow(st1) else st1
  }

  /** Whether the next line comes from the change file, and whether it comes from a web file. */
  predicate FromChange(st: State) {
    st.changing && st.Depth() == st.changeDepth
  }

  predicate FromWeb(st: State) {
    !st.changing || st.Depth() > st.changeDepth
  }

  /** One pass of `get_line` before includes are looked at; true means start over. */
  function Pass(st: State): (State, bool)
    requires st.files != []
  {
    var st1 := if FromChange(st) then ReadChange(st) else st;
    ReadChangeOpen(st);
    if FromWeb(st1) then
      var st2 := ReadWeb(st1);
      (st2, FromChange(st2))
    else (st1, false)
  }

  lemma ReadChangeOpen(st: State)
    ensures ReadChange(st).files == st.files && ReadChange(st).ended == st.ended && ReadChange(st).changeDepth == st.changeDepth
  {
  }

  predicate CanOpen(fs: Files, l: Line, depth: int) {
    IncludeName(l) != "" && depth < MAX_INCLUDE_DEPTH - 1 && IncludeName(l) in fs
  }

  /** An include line opens the file it names, if that exists and the nesting allows it. */
  function OpenInclude(st: State, fs: Files): State {
    if CanOpen(fs, st.line, st.Depth()) then st.(files := st.files + [Open(fs[IncludeName(st.line)])]) else st
  }

  /** One turn of `get_line`, from the label restart: it returns, or it goes back there. */
  datatype Outcome = Returned(st: State) | Restart(st: State)

  function Turn(st: State, fs: Files): Outcome
    requires st.files != []
  {
    var (st1, again) := Pass(st);
    if again then Restart(st1)
    else if IsInclude(st1.line) then Restart(OpenInclude(st1, fs))
    else Returned(st1)
  }

  lemma SwallowOpen(st: State)
    requires st.files != []
    ensures 1 <= |Swallow(st).files| <= |st.files|
    decreases |st.change.lines|
  {
    var (c, l, ok) := Read(st.change, st.line);
    var code := LowerCode(l);
    if ok && !IsCode(code, 'y') {
      var (files, web, found) := NextWeb(st.files, code);
      NextWebOpen(st.files, code);
      if found { SwallowOpen(st.(change := c, changeBuffer := code, changing := false, files := files, line := web)); }
    }
  }

  lemma PassOpen(st: State)
    requires st.files != []
    ensures 1 <= |Pass(st).0.files| <= |st.files|
  {
    hide Read, Swallow, TakeWeb, ReadChange;
    var st1 := if FromChange(st) then ReadChange(st) else st;
    ReadChangeOpen(st);
    TakeWebOpen(st1);
    SwallowOpen(TakeWeb(st1));
  }

  /** The call after n turns. */
  function RunFor(st: State, fs: Files, n: nat): (o: Outcome)
    requires st.files != []
    ensures o.st.files != []
    decreases n
  {
    if n == 0 then Restart(st)
    else
      PassOpen(st);
      match Turn(st, fs)
      case Returned(st1) => Returned(st1)
      case Restart(st1) => RunFor(st1, fs, n - 1)
  }

  /** The call returns. */
  ghost predicate Halts(st: State, fs: Files)
    requires st.files != []
  {
    exists n: nat :: RunFor(st, fs, n).Returned?
  }

  lemma {:induction false} RunAdd(st: State, fs: Files, a: nat, b: nat)
    requires st.files != []
    ensures RunFor(st, fs, a).Restart? ==> RunFor(st, fs, a + b) == RunFor(RunFor(st, fs, a).st, fs, b)
    ensures RunFor(st, fs, a).Returned? ==> RunFor(st, fs, a + b) == RunFor(st, fs, a)
    decreases a
  {
    hide Turn;
    if a > 0 {
      PassOpen(st);
      TurnOpen(st, fs);
      if Turn(st, fs).Restart? { RunAdd(Turn(st, fs).st, fs, a - 1, b); }
    }
  }

  lemma TurnOpen(st: State, fs: Files)
    requires st.files != []
    ensures Turn(st, fs).st.files != []
  {
    hide Pass;
    PassOpen(st);
  }

  // ----- Until the end of the web file every turn makes progress -----

  function Pow(w: nat, k: nat): nat {
    if k == 0 then 1 else w * Pow(w, k - 1)
  }

  /** The weight of a line at depth i, more than any file opened from it can weigh. */
  ghost function Weight(w: nat, i: int): nat {
    if 0 <= i < MAX_INCLUDE_DEPTH then Pow(w, MAX_INCLUDE_DEPTH - 1 - i) else 0
  }

  ghost function Load(files: seq<Reader>, w: nat): nat {
    if files == [] then 0
    else (|files[|files| - 1].lines| + 1) * Weight(w, |files| - 1) + Load(files[..|files| - 1], w)
  }

  ghost function Measure(st: State, w: nat): nat {
    |st.change.lines| * Pow(w, MAX_INCLUDE_DEPTH) + Load(st.files, w)
  }

  /** Between 1 and 10 files are open; once the web file has ended, there is nothing left of it and no change is going on. */
  ghost predicate Sane(st: State) {
    && 1 <= |st.files| <= MAX_INCLUDE_DEPTH
    && (st.changing ==> st.changeDepth <= st.Depth())
    && (st.ended ==> !st.changing && st.files[0].eof && st.files[0].lines == [])
    && (forall i :: 0 <= i < |st.files| ==> st.files[i].eof ==> st.files[i].lines == [])
  }

  /** Moreover no file is longer than w - 2 lines. */
  ghost predicate Bounded(st: State, fs: Files, w: nat) {
    && Sane(st) && 2 <= w
    && forall name :: name in fs ==> |fs[name].lines| + 2 <= w
  }

  /** The web file has been read to its end, and nothing else is open. */
  predicate AtBottom(st: State) {
    st.ended && |st.files| == 1
  }

  lemma {:induction false} PowPositive(w: nat, k: nat)
    requires 1 <= w
    ensures 1 <= Pow(w, k)
  {
    if k > 0 { PowPositive(w, k - 1); }
  }

  lemma LoadPop(files: seq<Reader>, w: nat)
    requires 1 <= |files| <= MAX_INCLUDE_DEPTH && 1 <= w
    ensures Load(files[..|files| - 1], w) + 1 <= Load(files, w)
  {
    PowPositive(w, MAX_INCLUDE_DEPTH - |files|);
  }

  /** Reading the innermost file. */
  lemma LoadRead(files: seq<Reader>, line: Line, w: nat)
    requires 1 <= |files| <= MAX_INCLUDE_DEPTH && 1 <= w
    ensures var (r, l, ok) := Read(files[|files| - 1], line);
      var files' := files[|files| - 1 := r];
      if ok then Load(files', w) + Weight(w, |files| - 1) == Load(files, w) else Load(files', w) == Load(files, w)
  {
    var d := |files| - 1;
    var (r, l, ok) := Read(files[d], line);
    assert files[d := r][..d] == files[..d];
    var n := |files[d].lines|;
    assert ok ==> (n + 1) * Weight(w, d) == n * Weight(w, d) + Weight(w, d);
  }

  lemma TimesLess(a: nat, b: nat, p: nat)
    requires a < b && 1 <= p
    ensures a * p < b * p
  {
    assert b * p == a * p + (b - a) * p;
  }

  /** A file opened at depth |files| weighs less than one line one level up. */
  lemma LoadOpen(files: seq<Reader>, r: Reader, w: nat)
    requires 1 <= |files| < MAX_INCLUDE_DEPTH && |r.lines| + 2 <= w
    ensures Load(files + [r], w) < Load(files, w) + Weight(w, |files| - 1)
  {
    assert (files + [r])[..|files + [r]| - 1] == files;
    var k := MAX_INCLUDE_DEPTH - 1 - |files|;
    PowPositive(w, k);
    TimesLess(|r.lines| + 1, w, Pow(w, k));
  }

  /** A line of the change file weighs more than a line of any file. */
  lemma {:induction false} WeightBelow(w: nat, i: nat)
    requires 1 <= w && i < MAX_INCLUDE_DEPTH
    ensures 1 <= Weight(w, i) <= Pow(w, MAX_INCLUDE_DEPTH)
  {
    PowMonotone(w, MAX_INCLUDE_DEPTH - 1 - i, MAX_INCLUDE_DEPTH);
    PowPositive(w, MAX_INCLUDE_DEPTH - 1 - i);
  }

  lemma {:induction false} PowMonotone(w: nat, j: nat, k: nat)
    requires 1 <= w && j <= k
    ensures Pow(w, j) <= Pow(w, k)
    decreases k
  {
    if j < k {
      PowMonotone(w, j, k - 1);
      assert Pow(w, k - 1) <= w * Pow(w, k - 1);
    }
  }

  lemma TimesDrop(n: nat, p: nat)
    requires 1 <= n
    ensures (n - 1) * p + p == n * p
  {
  }

  lemma FewerTimes(a: nat, b: nat, p: nat)
    requires a <= b
    ensures a * p <= b * p
  {
    assert b * p == a * p + (b - a) * p;
  }

  /** Readers that are as they should be. */
  ghost predicate Sound(files: seq<Reader>) {
    forall i :: 0 <= i < |files| ==> files[i].eof ==> files[i].lines == []
  }

  lemma {:induction false} NextWebDrops(files: seq<Reader>, line: Line, w: nat)
    requires 1 <= |files| <= MAX_INCLUDE_DEPTH && 1 <= w && Sound(files)
    ensures var (files', l, ok) := NextWeb(files, line);
      && 1 <= |files'| <= |files| && Sound(files')
      && (ok ==> Load(files', w) + Weight(w, |files'| - 1) <= Load(files, w))
      && (!ok ==> |files'| == 1 && files'[0].eof && Load(files', w) <= Load(files, w))
    decreases |files|
  {
    hide Load, Weight;
    var d := |files| - 1;
    var (r, l, ok) := Read(files[d], line);
    LoadRead(files, line, w);
    if !ok && d > 0 {
      LoadPop(files, w);
      NextWebDrops(files[..d], l, w);
    }
  }

  /** Swallowing the old part of a change only uses up lines. */
  lemma {:induction false} SwallowDrops(st: State, w: nat)
    requires Sane(st) && !st.ended && !st.changing && 1 <= w
    ensures var st' := Swallow(st);
      && Sane(st') && |st'.files| <= |st.files| && Measure(st', w) <= Measure(st, w)
      && (!FromChange(st') ==> !st'.changing)
      && (!FromChange(st') && !AtBottom(st') ==>
            !st'.ended && Measure(st', w) + Weight(w, st'.Depth()) <= Measure(st, w) + Weight(w, st.Depth()))
      && (st'.ended ==> AtBottom(st'))
    decreases |st.change.lines|
  {
    hide Load, Pow, Weight;
    var (c, l, ok) := Read(st.change, st.line);
    if ok {
      TimesDrop(|st.change.lines|, Pow(w, MAX_INCLUDE_DEPTH));
      var code := LowerCode(l);
      if !IsCode(code, 'y') {
        NextWebDrops(st.files, code, w);
        var (files, web, found) := NextWeb(st.files, code);
        var st1 := st.(change := c, changeBuffer := code, changing := false, files := files, line := web);
        if found { SwallowDrops(st1, w); }
      }
    }
  }

  /** Reading the web file uses up a line or a file, or finds the end. */
  lemma {:induction false} TakeWebDrops(st: State, w: nat)
    requires Sane(st) && FromWeb(st) && 1 <= w
    ensures var st' := TakeWeb(st);
      && Sane(st') && |st'.files| <= |st.files| && st'.change == st.change && st'.changing == st.changing
      && st'.changeBuffer == st.changeBuffer && st'.changeDepth == st.changeDepth
      && (st'.ended ==> st.ended || AtBottom(st')) && (st.ended ==> st'.ended)
      && (AtBottom(st') ==> Measure(st', w) <= Measure(st, w))
      && (FromChange(st') ==> !st'.ended && Measure(st', w) < Measure(st, w))
      && (!AtBottom(st') && !FromChange(st') ==> Measure(st', w) + Weight(w, st'.Depth()) <= Measure(st, w))
    decreases |st.files|
  {
    hide Load, Pow, Weight;
    var d := |st.files| - 1;
    var (r, l, ok) := Read(st.files[d], st.line);
    LoadRead(st.files, st.line, w);
    if ok {
      assert FromWeb(st.(files := st.files[d := r], line := l));
    } else if d == 0 {
      assert st.files[0 := r] == [r];
    } else {
      LoadPop(st.files, w);
      var st1 := st.(files := st.files[..d], line := l);
      if !FromChange(st1) { TakeWebDrops(st1, w); }
    }
  }

  lemma ReadWebDrops(st: State, w: nat)
    requires Sane(st) && FromWeb(st) && 1 <= w
    ensures var st' := ReadWeb(st);
      && Sane(st') && |st'.files| <= |st.files|
      && (st'.ended ==> st.ended || AtBottom(st')) && (st.ended ==> st'.ended)
      && (AtBottom(st') ==> Measure(st', w) <= Measure(st, w))
      && (FromChange(st') ==> !st'.ended && Measure(st', w) < Measure(st, w))
      && (!AtBottom(st') && !FromChange(st') ==> Measure(st', w) + Weight(w, st'.Depth()) <= Measure(st, w))
  {
    hide Measure, Weight, TakeWeb, Swallow;
    TakeWebOpen(st);
    TakeWebDrops(st, w);
    var st1 := TakeWeb(st);
    WeightBelow(w, st1.Depth());
    if !st1.changing && !st1.ended && st1.changeBuffer != "" && st1.line == st1.changeBuffer { SwallowDrops(st1, w); }
  }

  lemma {:induction false} FindXShrinks(change: Reader, line: Line)
    ensures |FindX(change, line).0.lines| <= |change.lines|
    decreases |change.lines|
  {
    var (c, l, ok) := Read(change, line);
    if ok && !IsCode(l, 'x') { FindXShrinks(c, LowerCode(l)); }
  }

  lemma {:induction false} FindTextShrinks(change: Reader, line: Line)
    ensures |FindText(change, line).0.lines| <= |change.lines|
    decreases |change.lines|
  {
    var (c, l, ok) := Read(change, line);
    if ok && l == "" { FindTextShrinks(c, l); }
  }

  lemma PrimeShrinks(st: State)
    ensures |Prime(st).change.lines| <= |st.change.lines| && Prime(st).files == st.files && Prime(st).ended == st.ended
    ensures Prime(st).changeDepth == st.changeDepth
  {
    FindXShrinks(st.change, st.line);
    var (c, l, ok) := FindX(st.change, st.line);
    FindTextShrinks(c, l);
  }

  /** Reading the change file uses up one of its lines, or the change is over. */
  lemma ReadChangeDrops(st: State, w: nat)
    requires Sane(st) && FromChange(st) && 1 <= w
    ensures var st' := ReadChange(st);
      && Sane(st') && st'.files == st.files && !st'.ended && Measure(st', w) <= Measure(st, w)
      && (if FromChange(st') then st.change.lines != [] && !st.change.eof else !st'.changing)
      && (st.change.lines != [] && !st.change.eof ==> Measure(st', w) + Pow(w, MAX_INCLUDE_DEPTH) <= Measure(st, w))
  {
    hide Load, Pow, Prime;
    var (c, l, ok) := Read(st.change, st.line);
    var st1 := st.(change := c, line := if ok then LowerCode(l) else "@z");
    PrimeShrinks(st1);
    FewerTimes(|Prime(st1).change.lines|, |c.lines|, Pow(w, MAX_INCLUDE_DEPTH));
    if ok { TimesDrop(|st.change.lines|, Pow(w, MAX_INCLUDE_DEPTH)); }
  }

  /** Every pass comes to the end of the web file or makes the measure smaller, by a whole line if it does not start over. */
  lemma PassDrops(st: State, w: nat)
    requires Sane(st) && 1 <= w
    ensures var (st', again) := Pass(st);
      && Sane(st') && |st'.files| <= |st.files|
      && (st'.ended ==> st.ended || AtBottom(st')) && (st.ended ==> st'.ended)
      && (again ==> !st'.ended && Measure(st', w) < Measure(st, w))
      && (!again && !AtBottom(st') ==> Measure(st', w) + Weight(w, st'.Depth()) <= Measure(st, w))
  {
    hide Measure, Pow, ReadChange, ReadWeb, Weight;
    WeightBelow(w, st.Depth());
    var st1 := if FromChange(st) then ReadChange(st) else st;
    ReadChangeOpen(st);
    if FromChange(st) { ReadChangeDrops(st, w); }
    if FromWeb(st1) { ReadWebDrops(st1, w); }
  }

  lemma OpenDrops(st: State, fs: Files, w: nat)
    requires Bounded(st, fs, w)
    ensures Bounded(OpenInclude(st, fs), fs, w) && Measure(OpenInclude(st, fs), w) < Measure(st, w) + Weight(w, st.Depth())
  {
    hide Load, Pow, Weight;
    WeightBelow(w, st.Depth());
    if CanOpen(fs, st.line, st.Depth()) {
      var f := fs[IncludeName(st.line)];
      OpenSize(f);
      LoadOpen(st.files, Open(f), w);
    }
  }

  lemma OpenSize(f: File)
    ensures |Open(f).lines| <= |f.lines| && !Open(f).eof
  {
  }

  /**
   Where a call gets without coming back to an include line with everything else read: the
   state it returns in, or the state in which it has read the web file to its end and the
   buffer still holds an include line.
   */
  ghost function Reach(st: State, fs: Files, w: nat): Outcome
    requires Bounded(st, fs, w)
    decreases Measure(st, w)
  {
    PassDrops(st, w);
    var (st1, again) := Pass(st);
    if again then Reach(st1, fs, w)
    else if !IsInclude(st1.line) then Returned(st1)
    else if AtBottom(st1) then Restart(st1)
    else
      OpenDrops(st1, fs, w);
      Reach(OpenInclude(st1, fs), fs, w)
  }

  /** A line that is delivered makes the measure smaller. */
  lemma {:induction false} ReachDrops(st: State, fs: Files, w: nat)
    requires Bounded(st, fs, w)
    ensures var o := Reach(st, fs, w);
      && Bounded(o.st, fs, w) && (o.Returned? <==> !IsInclude(o.st.line))
      && (o.Restart? ==> AtBottom(o.st))
      && (!o.st.ended ==> Measure(o.st, w) < Measure(st, w))
    decreases Measure(st, w)
  {
    hide Measure, Pass, OpenInclude, Weight;
    PassDrops(st, w);
    var (st1, again) := Pass(st);
    WeightBelow(w, st1.Depth());
    if again {
      ReachDrops(st1, fs, w);
    } else if IsInclude(st1.line) && !AtBottom(st1) {
      OpenDrops(st1, fs, w);
      ReachDrops(OpenInclude(st1, fs), fs, w);
    }
  }

  /** The turns it takes. */
  lemma {:induction false} ReachRuns(st: State, fs: Files, w: nat) returns (n: nat)
    requires Bounded(st, fs, w)
    ensures n > 0 && RunFor(st, fs, n)
      == match Reach(st, fs, w)
         case Returned(s) => Returned(s)
         case Restart(s) => Restart(OpenInclude(s, fs))
    decreases Measure(st, w)
  {
    hide Measure, Pass, OpenInclude, Weight;
    PassDrops(st, w);
    PassOpen(st);
    var (st1, again) := Pass(st);
    if again {
      n := ReachRuns(st1, fs, w);
      n := n + 1;
    } else if IsInclude(st1.line) && !AtBottom(st1) {
      OpenDrops(st1, fs, w);
      n := ReachRuns(OpenInclude(st1, fs), fs, w);
      n := n + 1;
    } else {
      n := 1;
      RunOnce(st, fs);
    }
  }

  lemma RunOnce(st: State, fs: Files)
    requires st.files != []
    ensures RunFor(st, fs, 1) == Turn(st, fs)
  {
    hide Turn;
    TurnOpen(st, fs);
  }

  // ----- Behind the end of the web file -----

  /** What reading a file to its end comes to: a line is found that is not an include, or this is left in the buffer. */
  datatype Visit = Finds | Leaves(line: Line)

  /** Reading r, open at depth d, when the web file has ended and the buffer holds line. */
  function VisitFile(fs: Files, r: Reader, d: nat, line: Line): Visit
    requires d < MAX_INCLUDE_DEPTH
    decreases MAX_INCLUDE_DEPTH - d, |r.lines|
  {
    var (r', l, ok) := Read(r, line);
    if !ok then Leaves(l)
    else if !IsInclude(l) then Finds
    else
      match VisitLine(fs, l, d)
      case Finds => Finds
      case Leaves(x) => VisitFile(fs, r', d, x)
  }

  /** An include line, met at depth d. */
  function VisitLine(fs: Files, l: Line, d: nat): Visit
    requires d < MAX_INCLUDE_DEPTH
    decreases MAX_INCLUDE_DEPTH - d, 0
  {
    if CanOpen(fs, l, d) then VisitFile(fs, Open(fs[IncludeName(l)]), d + 1, l) else Leaves(l)
  }

  /** The web file has ended, no change is going on, and the files up from depth 1 are base. */
  ghost predicate Over(st: State, base: seq<Reader>) {
    st.ended && !st.changing && base != [] && base[0].eof && |base| < MAX_INCLUDE_DEPTH
  }

  /** A turn then only reads the web files. */
  lemma TurnOver(st: State, fs: Files)
    requires st.files != [] && st.ended && !st.changing
    ensures Pass(st) == (TakeWeb(st), false)
    ensures Turn(st, fs)
         == var s := TakeWeb(st); if IsInclude(s.line) then Restart(OpenInclude(s, fs)) else Returned(s)
  {
    TakeWebOver(st);
  }

  lemma {:induction false} TakeWebOver(st: State)
    requires st.files != [] && st.ended && !st.changing
    ensures TakeWeb(st).ended && !TakeWeb(st).changing && TakeWeb(st).changeBuffer == st.changeBuffer
    decreases |st.files|
  {
    var d := |st.files| - 1;
    var (r, l, ok) := Read(st.files[d], st.line);
    if !ok && d > 0 { TakeWebOver(st.(files := st.files[..d], line := l)); }
  }

  /** After n turns the call has returned, or goes on as from back, with what is left in the buffer. */
  ghost predicate Comes(st: State, fs: Files, n: nat, v: Visit, back: State)
    requires st.files != [] && back.files != []
  {
    match v
    case Finds => RunFor(st, fs, n).Returned?
    case Leaves(x) => forall m: nat :: m > 0 ==> RunFor(st, fs, n + m) == RunFor(back.(line := x), fs, m)
  }

  lemma ComesThen(st: State, fs: Files, k: nat, x: Line, mid: State, k': nat, v: Visit, back: State)
    requires st.files != [] && mid.files != [] && back.files != []
    requires Comes(st, fs, k, Leaves(x), mid) && Comes(mid.(line := x), fs, k', v, back)
    ensures Comes(st, fs, k + k', v, back)
  {
    hide RunFor;
    match v
    case Finds =>
      RunNone(mid.(line := x), fs);
      assert k' > 0;
    case Leaves(y) =>
      forall m: nat | m > 0 ensures RunFor(st, fs, k + k' + m) == RunFor(back.(line := y), fs, m) {
        assert RunFor(st, fs, k + (k' + m)) == RunFor(mid.(line := x), fs, k' + m);
      }
  }

  lemma RunNone(st: State, fs: Files)
    requires st.files != []
    ensures RunFor(st, fs, 0) == Restart(st)
  {
  }

  lemma ComesAfterTurn(st: State, fs: Files, st1: State, k: nat, v: Visit, back: State)
    requires st.files != [] && st1.files != [] && back.files != []
    requires RunFor(st, fs, 1) == Restart(st1) && Comes(st1, fs, k, v, back)
    ensures Comes(st, fs, 1 + k, v, back)
  {
    hide RunFor;
    RunAdd(st, fs, 1, k);
    if v.Leaves? {
      forall m: nat | m > 0 ensures RunFor(st, fs, 1 + k + m) == RunFor(back.(line := v.line), fs, m) {
        RunAdd(st, fs, 1, k + m);
      }
    }
  }

  /** Visiting the innermost file is reading it: afterwards the turns are those without it. */
  lemma {:induction false} VisitRuns(st: State, fs: Files, base: seq<Reader>, r: Reader) returns (n: nat)
    requires Over(st, base) && st.files == base + [r]
    ensures Comes(st, fs, n, VisitFile(fs, r, |base|, st.line), st.(files := base))
    decreases MAX_INCLUDE_DEPTH - |base|, |r.lines|
  {
    hide VisitLine, OpenInclude, Comes, RunFor, Turn, Pass, TakeWeb;
    var d := |base|;
    var (r', l, ok) := Read(r, st.line);
    assert st.files[d] == r && st.files[..d] == base && st.files[d := r'] == base + [r'];
    if !ok {
      n := 0;
      CloseFile(st, fs, base, l);
    } else {
      var st1 := st.(files := base + [r'], line := l);
      FirstTurn(st, fs, base, r, st1);
      if !IsInclude(l) {
        n := 1;
        ComesBack(st, fs, st.(files := base));
      } else {
        var k := LineRuns(st1, fs, base, r');
        var v := VisitLine(fs, l, d);
        n := 1 + k;
        if v.Leaves? {
          var mid := st1.(line := v.line);
          var k' := VisitRuns(mid, fs, base, r');
          n := 1 + (k + k');
          SameBack(mid, fs, k', VisitFile(fs, r', d, v.line), mid.(files := base), st.(files := base));
          ComesThen(OpenInclude(st1, fs), fs, k, v.line, st1, k', VisitFile(fs, r', d, v.line), st.(files := base));
          ComesAfterTurn(st, fs, OpenInclude(st1, fs), k + k', VisitFile(fs, r', d, v.line), st.(files := base));
        } else {
          ComesElsewhere(OpenInclude(st1, fs), fs, k, st1, st.(files := base));
          ComesAfterTurn(st, fs, OpenInclude(st1, fs), k, v, st.(files := base));
        }
      }
    }
  }

  lemma SameBack(st: State, fs: Files, n: nat, v: Visit, back: State, back': State)
    requires st.files != [] && back.files != [] && Comes(st, fs, n, v, back) && back' == back.(line := back'.line)
    ensures Comes(st, fs, n, v, back')
  {
    hide RunFor;
    assert forall x :: back'.(line := x) == back.(line := x);
  }

  lemma ComesElsewhere(st: State, fs: Files, n: nat, back: State, back': State)
    requires st.files != [] && back.files != [] && back'.files != [] && Comes(st, fs, n, Finds, back)
    ensures Comes(st, fs, n, Finds, back')
  {
  }

  lemma ComesBack(st: State, fs: Files, back: State)
    requires st.files != [] && back.files != [] && RunFor(st, fs, 1).Returned?
    ensures Comes(st, fs, 1, Finds, back)
  {
  }

  /** A turn that reads a line of the innermost file. */
  lemma FirstTurn(st: State, fs: Files, base: seq<Reader>, r: Reader, st1: State)
    requires Over(st, base) && st.files == base + [r] && Read(r, st.line).2
    requires st1 == st.(files := base + [Read(r, st.line).0], line := Read(r, st.line).1)
    ensures RunFor(st, fs, 1) == if IsInclude(st1.line) then Restart(OpenInclude(st1, fs)) else Returned(st1)
  {
    hide OpenInclude;
    var d := |base|;
    assert st.files[d] == r && st.files[d := Read(r, st.line).0] == st1.files;
    TurnOver(st, fs);
    RunOnce(st, fs);
  }

  /** An exhausted file is closed in the turn that finds it so. */
  lemma CloseFile(st: State, fs: Files, base: seq<Reader>, l: Line)
    requires Over(st, base) && |st.files| == |base| + 1 && st.files[..|base|] == base
    requires !Read(st.files[|base|], st.line).2 && Read(st.files[|base|], st.line).1 == l
    ensures Comes(st, fs, 0, Leaves(l), st.(files := base))
  {
    hide OpenInclude, Pass;
    var st1 := st.(files := base, line := l);
    assert TakeWeb(st) == TakeWeb(st1);
    TurnOver(st, fs);
    TurnOver(st1, fs);
  }

  /** The turns that an include line takes, once it has been read. */
  lemma {:induction false} LineRuns(st: State, fs: Files, base: seq<Reader>, r: Reader) returns (n: nat)
    requires Over(st, base) && st.files == base + [r] && IsInclude(st.line)
    ensures OpenInclude(st, fs).files != []
    ensures Comes(OpenInclude(st, fs), fs, n, VisitLine(fs, st.line, |base|), st)
    decreases MAX_INCLUDE_DEPTH - |base|, 0
  {
    hide VisitFile, RunFor;
    if CanOpen(fs, st.line, |base|) {
      hide Comes;
      var f := Open(fs[IncludeName(st.line)]);
      var st1 := OpenInclude(st, fs);
      n := VisitRuns(st1, fs, base + [r], f);
      assert st1.(files := base + [r]) == st;
    } else {
      n := 0;
      assert st.(line := st.line) == st;
    }
  }

  /** At the end of the web file an include line is looked at again, and again what it leaves. */
  lemma BottomRuns(st: State, fs: Files) returns (n: nat)
    requires AtBottom(st) && !st.changing && st.files[0].eof && IsInclude(st.line)
    ensures n > 0 && OpenInclude(st, fs).files != []
    ensures RunFor(OpenInclude(st, fs), fs, n)
      == match VisitLine(fs, st.line, 0)
         case Leaves(x) =>
           (var back := st.(line := x); if IsInclude(x) then Restart(OpenInclude(back, fs)) else Returned(back))
         case Finds => RunFor(OpenInclude(st, fs), fs, n)
    ensures VisitLine(fs, st.line, 0).Finds? ==> RunFor(OpenInclude(st, fs), fs, n).Returned?
  {
    hide VisitFile, RunFor, Turn, Pass, TakeWeb;
    if CanOpen(fs, st.line, 0) {
      var st1 := OpenInclude(st, fs);
      var f := Open(fs[IncludeName(st.line)]);
      n := VisitRuns(st1, fs, st.files, f);
      assert st1.(files := st.files) == st;
      if VisitLine(fs, st.line, 0).Leaves? {
        BottomTurn(st.(line := VisitLine(fs, st.line, 0).line), fs);
        n := n + 1;
      } else {
        RunNone(st1, fs);
      }
    } else {
      n := 1;
      assert st.(line := st.line) == st;
      BottomTurn(st, fs);
    }
  }

  /** A turn with everything read. */
  lemma BottomTurn(st: State, fs: Files)
    requires AtBottom(st) && !st.changing && st.files[0].eof
    ensures RunFor(st, fs, 1) == if IsInclude(st.line) then Restart(OpenInclude(st, fs)) else Returned(st)
  {
    hide OpenInclude;
    TurnOver(st, fs);
    RunOnce(st, fs);
    assert TakeWeb(st) == st;
  }

  // ----- Exactly when a call returns -----

  /** All lines of all files. */
  function AllLines(fs: Files): set<Line> {
    set name, i | name in fs && 0 <= i < |fs[name].lines| :: fs[name].lines[i]
  }

  /**
   Following the include lines that are left in the buffer, one from another, never comes to
   an end: they come round to one that was met before. Those not yet met are among unmet.
   */
  predicate Loops(fs: Files, l: Line, unmet: set<Line>)
    decreases |unmet|
  {
    && IsInclude(l)
    && match VisitLine(fs, l, 0)
       case Finds => false
       case Leaves(x) => l in unmet ==> Loops(fs, x, unmet - {l})
  }

  /** What is left is a line of some file, or what was there. */
  lemma {:induction false} VisitFromFiles(fs: Files, r: Reader, d: nat, line: Line)
    requires d < MAX_INCLUDE_DEPTH && forall i :: 0 <= i < |r.lines| ==> r.lines[i] in AllLines(fs)
    ensures var v := VisitFile(fs, r, d, line); v.Leaves? ==> v.line == "" || v.line == line || v.line in AllLines(fs)
    decreases MAX_INCLUDE_DEPTH - d, |r.lines|
  {
    hide AllLines;
    var (r', l, ok) := Read(r, line);
    if ok && IsInclude(l) {
      LineFromFiles(fs, l, d);
      var v := VisitLine(fs, l, d);
      if v.Leaves? { VisitFromFiles(fs, r', d, v.line); }
    }
  }

  lemma {:induction false} LineFromFiles(fs: Files, l: Line, d: nat)
    requires d < MAX_INCLUDE_DEPTH
    ensures var v := VisitLine(fs, l, d); v.Leaves? ==> v.line == "" || v.line == l || v.line in AllLines(fs)
    decreases MAX_INCLUDE_DEPTH - d, 0
  {
    if CanOpen(fs, l, d) {
      var f := fs[IncludeName(l)];
      forall i | 0 <= i < |Open(f).lines| ensures Open(f).lines[i] in AllLines(fs) {
        assert Open(f).lines[i] == f.lines[i];
      }
      VisitFromFiles(fs, Open(f), d + 1, l);
    }
  }

  /** Not coming round, the call returns. */
  lemma {:induction false} NoLoopHalts(st: State, fs: Files, unmet: set<Line>)
    requires AtBottom(st) && !st.changing && st.files[0].eof && IsInclude(st.line) && !Loops(fs, st.line, unmet)
    ensures OpenInclude(st, fs).files != [] && Halts(OpenInclude(st, fs), fs)
    decreases |unmet|
  {
    hide RunFor, VisitLine;
    var n := BottomRuns(st, fs);
    var st1 := OpenInclude(st, fs);
    match VisitLine(fs, st.line, 0)
    case Finds => assert RunFor(st1, fs, n).Returned?;
    case Leaves(x) =>
      if IsInclude(x) {
        var back := st.(line := x);
        NoLoopHalts(back, fs, unmet - {st.line});
        var m: nat :| RunFor(OpenInclude(back, fs), fs, m).Returned?;
        RunAdd(st1, fs, n, m);
        assert RunFor(st1, fs, n + m).Returned?;
      } else {
        assert RunFor(st1, fs, n).Returned?;
      }
  }

  /** Include lines that lead only to one another. */
  ghost predicate Trap(fs: Files, s: set<Line>) {
    forall l :: l in s ==> IsInclude(l) && VisitLine(fs, l, 0).Leaves? && VisitLine(fs, l, 0).line in s
  }

  /** Coming round, the lines met form a trap; met are those before l, each leading to the next. */
  lemma {:induction false} LoopTraps(fs: Files, l: Line, unmet: set<Line>, met: set<Line>) returns (s: set<Line>)
    requires Loops(fs, l, unmet) && (l in unmet || l in met)
    requires unmet + met >= AllLines(fs)
    requires forall x :: x in met ==>
      IsInclude(x) && VisitLine(fs, x, 0).Leaves? && (VisitLine(fs, x, 0).line in met || VisitLine(fs, x, 0).line == l)
    ensures l in s && Trap(fs, s)
    decreases |unmet|
  {
    hide VisitLine, AllLines, IsInclude;
    if l in met {
      s := met;
    } else {
      var x := VisitLine(fs, l, 0).line;
      LineFromFiles(fs, l, 0);
      assert Loops(fs, x, unmet - {l});
      LoopIsInclude(fs, x, unmet - {l});
      s := LoopTraps(fs, x, unmet - {l}, met + {l});
      TrapGrows(fs, s, met + {l}, x);
      s := s + (met + {l});
    }
  }

  lemma LoopIsInclude(fs: Files, l: Line, unmet: set<Line>)
    requires Loops(fs, l, unmet)
    ensures IsInclude(l) && l != ""
  {
  }

  lemma TrapGrows(fs: Files, s: set<Line>, met: set<Line>, x: Line)
    requires Trap(fs, s) && x in s
    requires forall y :: y in met ==>
      IsInclude(y) && VisitLine(fs, y, 0).Leaves? && (VisitLine(fs, y, 0).line in met || VisitLine(fs, y, 0).line == x)
    ensures Trap(fs, s + met)
  {
    hide VisitLine, IsInclude;
  }

  /** In a trap the call never returns. */
  lemma {:induction false} TrapNeverHalts(st: State, fs: Files, s: set<Line>, n: nat)
    requires AtBottom(st) && !st.changing && st.files[0].eof && Trap(fs, s) && st.line in s
    ensures OpenInclude(st, fs).files != [] && RunFor(OpenInclude(st, fs), fs, n).Restart?
    decreases n
  {
    hide RunFor, VisitLine, IsInclude;
    var k := BottomRuns(st, fs);
    var st1, back := OpenInclude(st, fs), st.(line := VisitLine(fs, st.line, 0).line);
    if n <= k {
      RunAdd(st1, fs, n, k - n);
    } else {
      RunAdd(st1, fs, k, n - k);
      TrapNeverHalts(back, fs, s, n - k);
    }
  }

  /** The call would go round for ever. */
  ghost predicate Stuck(st: State, fs: Files, w: nat)
    requires Bounded(st, fs, w)
  {
    var o := Reach(st, fs, w);
    o.Restart? && Loops(fs, o.st.line, AllLines(fs) + {o.st.line})
  }

  /**
   Exactly when a call of `get_line` returns: unless it reads the web file to its end with an
   include line left in the buffer, from which the include lines left one after another come
   round.
   */
  lemma HaltsExactly(st: State, fs: Files, w: nat)
    requires Bounded(st, fs, w)
    ensures Halts(st, fs) <==> !Stuck(st, fs, w)
  {
    hide RunFor, Reach, Loops, AllLines, OpenInclude;
    var n := ReachRuns(st, fs, w);
    ReachDrops(st, fs, w);
    var o := Reach(st, fs, w);
    if o.Returned? {
      assert RunFor(st, fs, n).Returned?;
    } else if Stuck(st, fs, w) {
      var s := LoopTraps(fs, o.st.line, AllLines(fs) + {o.st.line}, {});
      forall k: nat ensures RunFor(st, fs, k).Restart? {
        if k <= n {
          RunAdd(st, fs, k, n - k);
        } else {
          TrapNeverHalts(o.st, fs, s, k - n);
          RunAdd(st, fs, n, k - n);
        }
      }
    } else {
      NoLoopHalts(o.st, fs, AllLines(fs) + {o.st.line});
      var m: nat :| RunFor(OpenInclude(o.st, fs), fs, m).Returned?;
      RunAdd(st, fs, n, m);
      assert RunFor(st, fs, n + m).Returned?;
    }
  }

  // ----- A web file that ends with a line end -----

  /** The web file is not torn, and has not been found at its end. */
  ghost predicate Intact(files: seq<Reader>) {
    files != [] && !files[0].torn && !files[0].eof
  }

  lemma {:induction false} NextWebIntact(files: seq<Reader>, line: Line)
    requires Intact(files)
    ensures var (files', l, ok) := NextWeb(files, line); if ok then Intact(files') else l == ""
    decreases |files|
  {
    var d := |files| - 1;
    var (r, l, ok) := Read(files[d], line);
    if !ok && d > 0 { NextWebIntact(files[..d], l); }
  }

  lemma {:induction false} SwallowIntact(st: State)
    requires Intact(st.files) && !st.ended
    ensures var st' := Swallow(st); if st'.ended then st'.line == "" else Intact(st'.files)
    decreases |st.change.lines|
  {
    var (c, l, ok) := Read(st.change, st.line);
    var code := LowerCode(l);
    if ok && !IsCode(code, 'y') {
      NextWebIntact(st.files, code);
      var (files, web, found) := NextWeb(st.files, code);
      if found { SwallowIntact(st.(change := c, changeBuffer := code, changing := false, files := files, line := web)); }
    }
  }

  lemma {:induction false} TakeWebIntact(st: State)
    requires Intact(st.files) && !st.ended
    ensures var st' := TakeWeb(st); if st'.ended then st'.line == "" else Intact(st'.files)
    decreases |st.files|
  {
    var d := |st.files| - 1;
    var (r, l, ok) := Read(st.files[d], st.line);
    if !ok && d > 0 {
      var st1 := st.(files := st.files[..d], line := l);
      if !FromChange(st1) { TakeWebIntact(st1); }
    }
  }

  lemma PassIntact(st: State)
    requires Intact(st.files) && !st.ended
    ensures var st' := Pass(st).0; if st'.ended then st'.line == "" else Intact(st'.files)
  {
    hide ReadChange, TakeWeb, Swallow;
    var st1 := if FromChange(st) then ReadChange(st) else st;
    ReadChangeOpen(st);
    TakeWebIntact(st1);
    TakeWebOpen(st1);
    var st2 := TakeWeb(st1);
    if !st2.ended { SwallowIntact(st2); }
  }

  /**
   If the web file ends with a line end, every call returns, whatever files include each other
   and however they end; and the same holds of the next call.
   */
  lemma {:induction false} IntactHalts(st: State, fs: Files, w: nat)
    requires Bounded(st, fs, w) && Intact(st.files) && !st.ended
    ensures Reach(st, fs, w).Returned? && !Stuck(st, fs, w)
    ensures var s := Reach(st, fs, w).st; s.ended || Intact(s.files)
    decreases Measure(st, w)
  {
    hide Measure, Pass, Weight, Loops;
    PassDrops(st, w);
    PassIntact(st);
    var (st1, again) := Pass(st);
    if again {
      IntactHalts(st1, fs, w);
    } else if IsInclude(st1.line) && !AtBottom(st1) {
      OpenDrops(st1, fs, w);
      IntactHalts(OpenInclude(st1, fs), fs, w);
    }
  }

  // ----- Files that include each other without a last line end -----

  /** An include line that cannot be opened from the web file, left in the buffer at its end. */
  lemma UnopenedLoops(fs: Files, l: Line, unmet: set<Line>)
    requires IsInclude(l) && !CanOpen(fs, l, 0)
    ensures Loops(fs, l, unmet)
    decreases |unmet|
  {
    hide IsInclude, CanOpen;
    if l in unmet { UnopenedLoops(fs, l, unmet - {l}); }
  }

  /** So a web file that is one such line, without a line end, is never done with. */
  lemma UnopenedNeverReturns(st: State, fs: Files, l: Line, w: nat)
    requires IsInclude(l) && !CanOpen(fs, l, 0)
    requires st.files == [Reader([l], true, false)] && !st.changing && !st.ended && st.changeBuffer == "" && Bounded(st, fs, w)
    ensures !Halts(st, fs)
  {
    hide IsInclude, CanOpen, Measure, Weight, Halts, Loops, AllLines;
    var st1 := st.(files := [READ], line := l);
    assert [l][1..] == [];
    assert TakeWeb(st) == st1;
    assert Pass(st) == (st1, false);
    assert TakeWeb(st1) == st1.(ended := true);
    assert Pass(st1) == (st1.(ended := true), false);
    PassDrops(st, w);
    OpenDrops(st1, fs, w);
    assert OpenInclude(st1, fs) == st1;
    assert Reach(st1, fs, w) == Restart(st1.(ended := true));
    assert Reach(st, fs, w) == Reach(st1, fs, w);
    UnopenedLoops(fs, l, AllLines(fs) + {l});
    HaltsExactly(st, fs, w);
  }

  const SELF := File(["@i w"], true)
  const SELF_FILES: Files := map["w" := SELF]
  const READ := Reader([], true, true)

  function Copies(n: nat): seq<Reader> {
    if n == 0 then [] else Copies(n - 1) + [READ]
  }

  lemma {:induction false} CopiesAre(n: nat)
    ensures |Copies(n)| == n && forall i :: 0 <= i < n ==> Copies(n)[i] == READ
  {
    if n > 0 { CopiesAre(n - 1); }
  }

  lemma SelfName()
    ensures IsInclude("@i w") && IncludeName("@i w") == "w" && Open(SELF) == Reader(["@i w"], true, false)
  {
    var l := "@i w";
    assert l[2..] == " w" && " w"[1..] == "w" && "w"[1..] == "";
    assert SkipGaps(" w") == SkipGaps("w") == "w";
    assert Word("w") == ['w'] + Word("") == "w";
  }

  lemma {:induction false} SelfVisit(d: nat)
    requires d < MAX_INCLUDE_DEPTH
    ensures VisitLine(SELF_FILES, "@i w", d) == Leaves("@i w")
    decreases MAX_INCLUDE_DEPTH - d
  {
    SelfName();
    if d < MAX_INCLUDE_DEPTH - 1 {
      SelfVisit(d + 1);
      var l := "@i w";
      assert VisitFile(SELF_FILES, READ, d + 1, l) == Leaves(l);
      assert VisitFile(SELF_FILES, Open(SELF), d + 1, l) == VisitFile(SELF_FILES, READ, d + 1, l);
    }
  }

  /** With n files read to their ends and nothing else, the next pass finds the end of the web file. */
  lemma {:induction false} CloseAll(st: State, n: nat)
    requires n > 0 && st.files == Copies(n) && !st.changing
    ensures TakeWeb(st) == st.(files := [READ], ended := true)
    decreases n
  {
    CopiesAre(n);
    CopiesAre(n - 1);
    if n > 1 {
      var st1 := st.(files := Copies(n - 1));
      assert st.files[..n - 1] == Copies(n - 1);
      CloseAll(st1, n - 1);
    } else {
      assert Copies(1) == Copies(0) + [READ] == [READ];
    }
  }

  /** The state in which the call goes round. */
  function SelfState(ended: bool): State {
    State([READ], Reader([], false, true), false, 0, "", ended, "@i w")
  }

  /** The include line is read, and nothing is left of the file. */
  lemma SelfPass(st: State, d: nat)
    requires st == SelfState(false).(files := Copies(d) + [Open(SELF)], line := st.line)
    ensures Pass(st) == (SelfState(false).(files := Copies(d + 1)), false)
  {
    SelfName();
    CopiesAre(d);
    assert st.files[d] == Open(SELF) && st.files[d := READ] == Copies(d + 1);
    assert ["@i w"][1..] == [];
    assert Read(Open(SELF), st.line) == (READ, "@i w", true);
    assert TakeWeb(st) == SelfState(false).(files := Copies(d + 1));
  }

  /** From each depth the nesting goes on to the limit and back. */
  lemma {:induction false} SelfReach(st: State, d: nat)
    requires d < MAX_INCLUDE_DEPTH && st == SelfState(false).(files := Copies(d) + [Open(SELF)], line := st.line)
    requires Bounded(st, SELF_FILES, 3)
    ensures Reach(st, SELF_FILES, 3) == Restart(SelfState(true))
    decreases MAX_INCLUDE_DEPTH - d
  {
    hide Measure, Weight, IncludeName, IsInclude;
    SelfName();
    CopiesAre(d);
    var st1 := SelfState(false).(files := Copies(d + 1));
    SelfPass(st, d);
    PassDrops(st, 3);
    OpenDrops(st1, SELF_FILES, 3);
    var st2 := OpenInclude(st1, SELF_FILES);
    CopiesAre(d + 1);
    if d < MAX_INCLUDE_DEPTH - 1 {
      SelfReach(st2, d + 1);
    } else {
      CloseAll(st2, d + 1);
      assert Pass(st2) == (SelfState(true), false);
    }
  }

  /**
   A web file that is the one line `@i w`, without a line end, and is called w: the first call
   never returns. It comes back to the state it was in.
   */
  lemma SelfIncludeLoops() returns (n: nat)
    ensures var st := SelfState(false).(files := [Open(SELF)], line := "");
      Bounded(st, SELF_FILES, 3) && Stuck(st, SELF_FILES, 3) && !Halts(st, SELF_FILES)
    ensures var st := OpenInclude(SelfState(true), SELF_FILES);
      st.files != [] && n > 0 && RunFor(st, SELF_FILES, n) == Restart(st)
  {
    hide RunFor, Reach, IncludeName, IsInclude, Halts, AllLines;
    SelfName();
    SelfVisit(0);
    var st, l := SelfState(false).(files := [Open(SELF)], line := ""), "@i w";
    assert Copies(0) + [Open(SELF)] == [Open(SELF)];
    SelfReach(st, 0);
    var unmet := AllLines(SELF_FILES) + {l};
    assert Loops(SELF_FILES, l, unmet - {l});
    assert Loops(SELF_FILES, l, unmet);
    HaltsExactly(st, SELF_FILES, 3);
    n := BottomRuns(SelfState(true), SELF_FILES);
  }

  // ----- What the calls deliver -----

  /** Every call is made, and goes round, in such a state. */
  lemma {:induction false} RunBounded(st: State, fs: Files, w: nat, n: nat)
    requires Bounded(st, fs, w)
    ensures Bounded(RunFor(st, fs, n).st, fs, w)
    decreases n
  {
    hide Pass, OpenInclude, Measure, Weight;
    if n > 0 {
      PassDrops(st, w);
      OpenDrops(Pass(st).0, fs, w);
      if Turn(st, fs).Restart? { RunBounded(Turn(st, fs).st, fs, w, n - 1); }
    }
  }

  /** For every file system there is such a bound. */
  lemma {:induction false} SomeBound(fs: Files) returns (w: nat)
    ensures 2 <= w && forall name :: name in fs ==> |fs[name].lines| + 2 <= w
    decreases |fs|
  {
    w := 2;
    if fs != map[] {
      var name :| name in fs;
      w := SomeBound(fs - {name});
      w := w + |fs[name].lines|;
      forall other | other in fs ensures |fs[other].lines| + 2 <= w {
        if other != name { assert other in fs - {name}; }
      }
    }
  }

  /** Behind the end of the web file a call no longer touches the change file. */
  lemma {:induction false} RunOver(st: State, fs: Files, n: nat)
    requires st.files != [] && st.ended && !st.changing
    ensures var s := RunFor(st, fs, n).st; s.ended && !s.changing && s.changeBuffer == st.changeBuffer
    decreases n
  {
    hide Pass, TakeWeb;
    if n > 0 {
      TurnOver(st, fs);
      TakeWebOver(st);
      TakeWebOpen(st);
      if Turn(st, fs).Restart? { RunOver(Turn(st, fs).st, fs, n - 1); }
    }
  }

  /** A call ends in one way. */
  lemma RunUnique(st: State, fs: Files, a: nat, b: nat)
    requires st.files != [] && RunFor(st, fs, a).Returned? && RunFor(st, fs, b).Returned?
    ensures RunFor(st, fs, a) == RunFor(st, fs, b)
  {
    hide RunFor;
    if a <= b { RunAdd(st, fs, a, b - a); } else { RunAdd(st, fs, b, a - b); }
  }

  /** All lines delivered from a state on, up to the end of the input. */
  ghost function Delivered(st: State, fs: Files, w: nat): seq<Line>
    requires Bounded(st, fs, w)
    decreases Measure(st, w)
  {
    ReachDrops(st, fs, w);
    var o := Reach(st, fs, w);
    if o.st.ended then [] else [o.st.line] + Delivered(o.st, fs, w)
  }

  /** Where the web file is found at its end. */
  ghost function Final(st: State, fs: Files, w: nat): State
    requires Bounded(st, fs, w)
    decreases Measure(st, w)
  {
    ReachDrops(st, fs, w);
    var o := Reach(st, fs, w);
    if o.st.ended then o.st else Final(o.st, fs, w)
  }

  /** Every call up to the one that finds the end returns. */
  ghost predicate AllHalt(st: State, fs: Files, w: nat)
    requires Bounded(st, fs, w)
    decreases Measure(st, w)
  {
    ReachDrops(st, fs, w);
    var s := Reach(st, fs, w).st;
    !Stuck(st, fs, w) && (!s.ended ==> AllHalt(s, fs, w))
  }

  /** With a line end at the end of the web file they all do. */
  lemma {:induction false} IntactAllHalt(st: State, fs: Files, w: nat)
    requires Bounded(st, fs, w) && Intact(st.files) && !st.ended
    ensures AllHalt(st, fs, w)
    decreases Measure(st, w)
  {
    hide Measure, Reach, Stuck;
    ReachDrops(st, fs, w);
    IntactHalts(st, fs, w);
    var s := Reach(st, fs, w).st;
    if !s.ended { IntactAllHalt(s, fs, w); }
  }

  /** What a call that returns comes to. */
  lemma CallResult(st: State, fs: Files, w: nat, s: State, k: nat)
    requires Bounded(st, fs, w) && RunFor(st, fs, k) == Returned(s)
    ensures var r := Reach(st, fs, w).st;
      Bounded(s, fs, w) && s.ended == r.ended && s.changeBuffer == r.changeBuffer && (!s.ended ==> s == r)
  {
    hide Reach, RunFor, Measure;
    var n := ReachRuns(st, fs, w);
    ReachDrops(st, fs, w);
    RunBounded(st, fs, w, k);
    var o := Reach(st, fs, w);
    if o.Returned? {
      RunUnique(st, fs, k, n);
    } else {
      if k <= n { RunAdd(st, fs, k, n - k); } else { RunAdd(st, fs, n, k - n); }
      RunOver(OpenInclude(o.st, fs), fs, k - n);
    }
  }

  /** `reset_input`: the state in which reading starts. */
  function Start(web: File, change: File): State {
    Prime(State([Open(web)], Open(change), true, 0, "", false, "")).(changing := false, line := "")
  }

  lemma StartBounded(web: File, change: File, fs: Files, w: nat)
    requires 2 <= w && forall name :: name in fs ==> |fs[name].lines| + 2 <= w
    ensures Bounded(Start(web, change), fs, w)
    ensures !Open(web).torn ==> AllHalt(Start(web, change), fs, w)
  {
    hide Prime, AllHalt;
    PrimeShrinks(State([Open(web)], Open(change), true, 0, "", false, ""));
    if !Open(web).torn { IntactAllHalt(Start(web, change), fs, w); }
  }

  /** The reader itself; the fields are the globals of the source. */
  class Input {
    var files: seq<Reader>
    var change: Reader
    var changing: bool
    var changeDepth: nat
    var changeBuffer: Line
    var ended: bool
    var line: Line

    ghost function S(): State
      reads this
    {
      State(files, change, changing, changeDepth, changeBuffer, ended, line)
    }

    /** `reset_input` (cweb/common.c:512-536). */
    constructor (web: File, change: File)
      ensures S() == Start(web, change)
    {
      files, changeDepth := [Open(web)], 0;
      this.change, changeBuffer := Open(change), "";
      changing, ended, line := true, false, "";
      new;
      PrimeTheChangeBuffer();
      changing, line := !changing, "";
    }

    /** `input_ln(change_file)`. */
    method InputChange() returns (ok: bool)
      modifies this`change, this`line
      ensures (change, line, ok) == Read(old(change), old(line))
    {
      if change.eof { return false; }
      if change.lines == [] {
        change, line := change.(eof := true), "";
        return false;
      }
      line := change.lines[0];
      change := Reader(change.lines[1..], change.torn, change.torn && |change.lines| == 1);
      return true;
    }

    /** `input_ln(cur_file)`. */
    method InputWeb() returns (ok: bool)
      requires files != []
      modifies this`files, this`line
      ensures var d := |old(files)| - 1;
        |files| == d + 1 && files[..d] == old(files)[..d] && (files[d], line, ok) == Read(old(files)[d], old(line))
    {
      var d := |files| - 1;
      var r := files[d];
      if r.eof { return false; }
      if r.lines == [] {
        files, line := files[d := r.(eof := true)], "";
        return false;
      }
      files, line := files[d := Reader(r.lines[1..], r.torn, r.torn && |r.lines| == 1)], r.lines[0];
      return true;
    }

    /** Skips over the lines up to the next @x (cweb/common.c:394-406). */
    method SkipToX() returns (ok: bool)
      modifies this`change, this`line
      ensures (change, line, ok) == FindX(old(change), old(line))
    {
      ok := InputChange();
      while ok && !IsCode(line, 'x')
        invariant FindX(old(change), old(line))
               == if ok && !IsCode(line, 'x') then FindX(change, LowerCode(line))
                  else if ok then (change, LowerCode(line), true) else (change, line, false)
        decreases |change.lines|, ok
      {
        line := LowerCode(line);
        ok := InputChange();
      }
      if ok { line := LowerCode(line); }
    }

    /** Skips over blank lines (cweb/common.c:414-423). */
    method SkipBlanks() returns (ok: bool)
      modifies this`change, this`line
      ensures (change, line, ok) == FindText(old(change), old(line))
    {
      ok := InputChange();
      while ok && line == ""
        invariant FindText(old(change), old(line))
               == if ok && line == "" then FindText(change, line) else (change, line, ok)
        decreases |change.lines|, ok
      {
        ok := InputChange();
      }
    }

    /** `prime_the_change_buffer`. */
    method PrimeTheChangeBuffer()
      modifies this`change, this`changeBuffer, this`line
      ensures S() == Prime(old(S()))
    {
      hide FindX, FindText;
      changeBuffer := "";
      var ok := SkipToX();
      if !ok { return; }
      ok := SkipBlanks();
      if ok { changeBuffer := line; }
    }

    /** The next line of the innermost file that still has one, inside `check_change`. */
    method NextLine() returns (ok: bool)
      requires files != []
      modifies this`files, this`line
      ensures (files, line, ok) == NextWeb(old(files), old(line)) && files != []
    {
      NextWebOpen(files, line);
      while true
        invariant files != [] && NextWeb(files, line) == NextWeb(old(files), old(line))
        decreases |files|
      {
        ghost var before := files;
        var d := |files| - 1;
        ok := InputWeb();
        assert before[d := files[d]] == files;
        if ok || d == 0 { return; }
        files := files[..d];
      }
    }

    /** `check_change`, called when line and change_buffer agree. */
    method CheckChange()
      requires files != []
      modifies this
      ensures S() == Swallow(old(S()))
    {
      hide NextWeb;
      while true
        invariant files != [] && Swallow(S()) == Swallow(old(S()))
        decreases |change.lines|
      {
        var ok := InputChange();
        if !ok {
          changeBuffer, changing := "", false;
          return;
        }
        line := LowerCode(line);
        if IsCode(line, 'y') {
          changing, changeDepth := true, |files| - 1;
          return;
        }
        changeBuffer, changing := line, false;
        ok := NextLine();
        if !ok {
          ended := true;
          return;
        }
      }
    }

    method FromChangeFile()
      modifies this`change, this`changing, this`changeBuffer, this`line
      ensures S() == ReadChange(old(S()))
    {
      var ok := InputChange();
      line := if ok then LowerCode(line) else "@z";
      if IsCode(line, 'z') {
        PrimeTheChangeBuffer();
        changing := false;
      }
    }

    /** The lines and files that `TakeWeb` takes. */
    method CloseFinished()
      requires files != []
      modifies this`files, this`line, this`ended
      ensures S() == TakeWeb(old(S())) && files != []
    {
      TakeWebOpen(S());
      while true
        invariant files != [] && TakeWeb(S()) == TakeWeb(old(S()))
        decreases |files|
      {
        ghost var before := files;
        var d := |files| - 1;
        var ok := InputWeb();
        assert before[d := files[d]] == files && before[..d] == files[..d];
        if ok { return; }
        if d == 0 {
          ended := true;
          return;
        }
        files := files[..d];
        if changing && |files| - 1 == changeDepth { return; }
      }
    }

    method FromWebFile()
      requires files != []
      modifies this
      ensures S() == ReadWeb(old(S()))
    {
      hide TakeWeb, Swallow;
      CloseFinished();
      if !changing && !ended && changeBuffer != "" && line == changeBuffer { CheckChange(); }
    }

    /** One turn of `get_line`. */
    method TakeTurn(fs: Files) returns (again: bool)
      requires files != []
      modifies this
      ensures Turn(old(S()), fs) == if again then Restart(S()) else Returned(S())
      ensures files != []
    {
      hide ReadChange, ReadWeb;
      TurnOpen(S(), fs);
      ReadChangeOpen(S());
      if changing && |files| - 1 == changeDepth { FromChangeFile(); }
      if !changing || |files| - 1 > changeDepth {
        FromWebFile();
        if changing && |files| - 1 == changeDepth { return true; }
      }
      if !IsInclude(line) { return false; }
      var name := IncludeName(line);
      if name != "" && |files| - 1 < MAX_INCLUDE_DEPTH - 1 && name in fs { files := files + [Open(fs[name])]; }
      return true;
    }

    /** `get_line`, for the calls that return: true and a line, or false at the end of the input. */
    method GetLine(fs: Files) returns (more: bool)
      requires files != [] && Halts(S(), fs)
      modifies this
      ensures exists n: nat :: RunFor(old(S()), fs, n) == Returned(S())
      ensures more == !ended && files != []
    {
      hide Turn, Pass;
      ghost var bound: nat :| RunFor(S(), fs, bound).Returned?;
      ghost var k := bound;
      var again := true;
      while again
        invariant files != [] && (again ==> RunFor(S(), fs, k) == RunFor(old(S()), fs, bound))
        invariant !again ==> RunFor(old(S()), fs, bound) == Returned(S())
        decreases again, k
      {
        again := TakeTurn(fs);
        k := k - 1;
      }
      return !ended;
    }

    /** `check_complete`: whether it complains about a change that did not match. */
    method CheckComplete() returns (complaint: bool)
      ensures complaint <==> S().changeBuffer != ""
    {
      complaint := changeBuffer != "";
    }
  }
}
