/**
 How CWEAVE breaks its output into lines: a buffer of 80 characters that is flushed at a
 blank, before a control sequence, or anywhere when there is neither
 (cweb/cweave.c:183, 1701-1745, 1749-1775).
 */
module LineBreak {
  const LINE_LENGTH := 80

  // ----- What TeX reads -----

  /** Runs of blanks count as one blank. */
  function Collapse(s: string): string {
    if s == "" then "" else
    var r, c := Collapse(s[..|s| - 1]), s[|s| - 1];
    if c == ' ' && r != "" && r[|r| - 1] == ' ' then r else r + [c]
  }

  /** A line that ends in a per cent sign is joined to the next; other line ends are blanks. */
  function ReadLine(line: string): string {
    if line != "" && line[|line| - 1] == '%' then line[..|line| - 1] else line + " "
  }

  function ReadBack(lines: seq<string>): string {
    if lines == [] then "" else ReadBack(lines[..|lines| - 1]) + ReadLine(lines[|lines| - 1])
  }

  lemma ReadBackMore(lines: seq<string>, line: string)
    ensures ReadBack(lines + [line]) == ReadBack(lines) + ReadLine(line)
  {
    assert (lines + [line])[..|lines|] == lines;
  }

  /** Texts that collapse alike still do when the same text follows. */
  lemma {:induction false} CollapseFollowed(a: string, b: string, t: string)
    requires Collapse(a) == Collapse(b)
    ensures Collapse(a + t) == Collapse(b + t)
    decreases |t|
  {
    if t == "" {
      assert a + t == a && b + t == b;
    } else {
      var t' := t[..|t| - 1];
      assert (a + t)[..|a + t| - 1] == a + t' && (b + t)[..|b + t| - 1] == b + t';
      CollapseFollowed(a, b, t');
    }
  }

  ghost predicate Blanks(s: string) {
    forall i :: 0 <= i < |s| ==> s[i] == ' '
  }

  /** Blanks before a blank do not count. */
  lemma {:induction false} CollapseBlanks(a: string, s: string)
    requires Blanks(s)
    ensures Collapse(a + s + " ") == Collapse(a + " ")
    decreases |s|
  {
    if s == "" {
      assert a + s == a;
    } else {
      var s' := s[..|s| - 1];
      CollapseBlanks(a, s');
      assert (a + s + " ")[..|a + s|] == a + s == a + s' + " ";
    }
  }

  /** Writing a line: its blanks at the end and the line end count as the blank they replace. */
  lemma BreakAtBlank(before: string, line: string, blanks: string, rest: string)
    requires Blanks(blanks)
    ensures Collapse(before + line + " " + rest) == Collapse(before + line + blanks + " " + rest)
  {
    CollapseBlanks(before + line, blanks);
    CollapseFollowed(before + line + " ", before + line + blanks + " ", rest);
  }

  /** A line written up to position b, with a per cent sign. */
  lemma JoinLine(before: string, lines: seq<string>, line: string, blanks: string, text: string, b: nat)
    requires b <= |text| && text[..b] == line + blanks && blanks == "" && before == ReadBack(lines)
    ensures ReadBack(lines + [line + "%"]) + text[b..] == before + text
  {
    hide ReadBack;
    ReadBackMore(lines, line + "%");
    assert (line + "%")[..|line|] == line;
    assert line == text[..b];
    assert text == text[..b] + text[b..];
  }

  lemma Pieces(line: string, blanks: string, text: string, b: nat)
    requires 0 < b <= |text| && text[b - 1] == ' ' && text[..b] == line + blanks && Blanks(blanks)
    requires line != "" ==> line[|line| - 1] != ' '
    ensures blanks != "" && blanks == blanks[..|blanks| - 1] + " "
    ensures text == line + blanks[..|blanks| - 1] + " " + text[b..]
  {
    assert text[..b][b - 1] == ' ';
    assert text == text[..b] + text[b..];
  }

  /** A line written up to the blank at position b. */
  lemma EndLine(before: string, lines: seq<string>, line: string, blanks: string, text: string, b: nat)
    requires 0 < b <= |text| && text[b - 1] == ' ' && text[..b] == line + blanks && Blanks(blanks) && Plain(text)
    requires line != "" ==> line[|line| - 1] != ' '
    requires before == ReadBack(lines)
    ensures Collapse(ReadBack(lines + [line]) + text[b..]) == Collapse(before + text)
  {
    hide Collapse, ReadBack;
    NoSign(line, text);
    ReadBackMore(lines, line);
    Pieces(line, blanks, text, b);
    var short, rest := blanks[..|blanks| - 1], text[b..];
    BreakAtBlank(before, line, short, rest);
    Regroup(before, line, short, rest);
  }

  lemma Regroup(before: string, line: string, short: string, rest: string)
    ensures before + line + short + " " + rest == before + (line + short + " " + rest)
    ensures before + (line + " ") + rest == before + line + " " + rest
  {
  }

  /** Text without per cent signs or line ends. */
  ghost predicate Plain(s: string) {
    forall i :: 0 <= i < |s| ==> s[i] != '%' && s[i] != '\n'
  }

  /** A line of the file: plain but for a per cent sign at its end, and of 80 characters at most. */
  ghost predicate GoodLine(line: string) {
    |line| <= 80 && (Plain(line) || (line != "" && line[|line| - 1] == '%' && Plain(line[..|line| - 1])))
  }

  lemma JoinStretch(s: string, i: nat, j: nat, k: nat)
    requires i <= j <= k <= |s|
    ensures s[i..k] == s[i..j] + s[j..k]
  {
  }

  lemma LineOf(line: string, blanks: string, text: string, b: nat, perCent: bool)
    requires Plain(text) && b <= |text| <= LINE_LENGTH && text[..b] == line + blanks && (perCent ==> b < LINE_LENGTH)
    ensures Plain(text[b..]) && GoodLine(line + if perCent then "%" else "")
  {
    forall i | 0 <= i < |line| ensures line[i] == text[i] { assert (line + blanks)[i] == text[..b][i]; }
    assert Plain(line);
    if perCent {
      assert (line + "%")[..|line|] == line;
    } else {
      assert line + "" == line;
    }
  }

  /** A line that was asked for. */
  lemma CloseLine(before: string, lines: seq<string>, line: string, blanks: string, text: string, sent: string)
    requires text == line + blanks && Blanks(blanks) && Plain(text) && before == ReadBack(lines)
    requires Collapse(before + text) == Collapse(sent)
    ensures Collapse(ReadBack(lines + [line])) == Collapse(sent + " ")
  {
    hide Collapse, ReadBack;
    NoSign(line, text);
    ReadBackMore(lines, line);
    CollapseBlanks(before + line, blanks);
    CollapseFollowed(before + text, sent, " ");
    assert before + line + blanks == before + text;
    assert before + (line + " ") == before + line + " ";
  }

  lemma NoSign(line: string, text: string)
    requires Plain(text) && |line| <= |text| && line == text[..|line|]
    ensures ReadLine(line) == line + " "
  {
  }

  // ----- Where a line may be broken -----

  /** A blank, or a backslash that is neither behind another nor at the front. */
  ghost predicate Breakable(text: string, i: int) {
    0 <= i < |text| && (text[i] == ' ' || (text[i] == '\\' && i > 0 && text[i - 1] != '\\'))
  }

  /** The last such place; -1 if there is none. */
  ghost predicate LastBreak(text: string, i: int) {
    -1 <= i < |text| && (i >= 0 ==> Breakable(text, i)) && forall j :: i < j < |text| ==> !Breakable(text, j)
  }

  /** What is in front of the cut goes: up to the blank, up to the backslash, or all but one character. */
  ghost function Cut(text: string, i: int): nat
    requires |text| > 0 && -1 <= i < |text|
  {
    if i < 0 then |text| - 1 else if text[i] == ' ' then i + 1 else i
  }

  predicate IsLetter(c: char) {
    'a' <= c <= 'z' || 'A' <= c <= 'Z'
  }

  /** A control word goes on behind the cut. */
  ghost predicate SplitsWord(text: string, cut: nat) {
    cut < |text| && exists p :: 0 <= p < cut && text[p] == '\\' && LettersFrom(text, p + 1, cut + 1)
  }

  ghost predicate LettersFrom(text: string, p: int, q: int)
    requires 0 <= p <= q <= |text|
  {
    forall j :: p <= j < q ==> IsLetter(text[j])
  }

  lemma NoWordSplit(text: string, i: int)
    requires |text| > 0 && -1 <= i < |text| && (i >= 0 ==> Breakable(text, i))
    ensures i >= 0 ==> !SplitsWord(text, Cut(text, i))
  {
  }

  // ----- The buffer -----

  class Output {
    const buf: array<char>
    var outPtr: nat
    var lines: seq<string>     // the file
    ghost var sent: string     // everything sent, with a blank for each line end that was asked for

    ghost predicate Valid()
      reads this, buf
    {
      && buf.Length == LINE_LENGTH + 1 && buf[0] == '\\'
      && outPtr <= LINE_LENGTH
      && Plain(Pending()) && (forall i :: 0 <= i < |lines| ==> GoodLine(lines[i]))
      && Collapse(ReadBack(lines) + Pending()) == Collapse(sent)
    }

    /** What is in the buffer. */
    ghost function Pending(): string
      requires buf.Length == LINE_LENGTH + 1 && outPtr <= LINE_LENGTH
      reads this, buf
    {
      buf[1..outPtr + 1]
    }

    constructor ()
      ensures Valid() && fresh(buf) && lines == [] && Pending() == "" && sent == ""
    {
      buf := new char[LINE_LENGTH + 1](i => '\\');
      outPtr := 0;
      lines := [];
      sent := "";
    }

    /** The end of a line of b characters without the blanks at its end. */
    method LineEnd(b: nat) returns (j: nat)
      requires b < buf.Length
      ensures j <= b && (forall i :: j < i <= b ==> buf[i] == ' ') && (j > 0 ==> buf[j] != ' ')
    {
      j := b;
      while j > 0 && buf[j] == ' '
        invariant 0 <= j <= b && forall i :: j < i <= b ==> buf[i] == ' '
      {
        j := j - 1;
      }
    }

    /** Drops the first b characters. */
    method MoveDown(b: nat)
      requires buf.Length == LINE_LENGTH + 1 && buf[0] == '\\' && b <= outPtr <= LINE_LENGTH
      modifies this`outPtr, buf
      ensures outPtr == old(outPtr) - b && Pending() == old(Pending())[b..] && buf[0] == '\\'
    {
      ghost var was := buf[..];
      for i := 0 to outPtr - b
        invariant forall x :: 1 <= x <= i ==> buf[x] == was[x + b]
        invariant forall x :: i < x < buf.Length ==> buf[x] == was[x]
        invariant buf[0] == '\\'
        modifies buf
      {
        buf[1 + i] := buf[1 + b + i];
      }
      outPtr := outPtr - b;
    }

    /** `flush_buffer`: writes the first b characters, with a per cent sign or without the
     blanks at their end, and moves the others to the front. */
    method FlushBuffer(b: nat, perCent: bool) returns (ghost line: string, ghost blanks: string)
      requires buf.Length == LINE_LENGTH + 1 && buf[0] == '\\' && b <= outPtr <= LINE_LENGTH
      modifies this`outPtr, this`lines, buf
      ensures outPtr == old(outPtr) - b && Pending() == old(Pending())[b..] && buf[0] == '\\'
      ensures old(Pending())[..b] == line + blanks && Blanks(blanks) && (perCent ==> blanks == "")
      ensures !perCent && line != "" ==> line[|line| - 1] != ' '
      ensures lines == old(lines) + [line + if perCent then "%" else ""]
    {
      var j := b;
      if !perCent {
        j := LineEnd(b);
      }
      line, blanks := buf[1..j + 1], buf[j + 1..b + 1];
      assert Pending()[..b] == buf[1..b + 1];
      assert buf[1..b + 1] == line + blanks by { JoinStretch(buf[..], 1, j + 1, b + 1); }
      lines := lines + [buf[1..j + 1] + if perCent then "%" else ""];
      MoveDown(b);
    }

    /**
     `break_out`: a full buffer loses at least one character, and what TeX reads stays the same.
     The break is behind the last blank or in front of the last backslash that is not behind
     another, whichever comes last; i is its place, or -1.
     */
    method BreakOut() returns (ghost i: int)
      requires Valid() && outPtr == LINE_LENGTH
      modifies this`outPtr, this`lines, buf
      ensures Valid() && outPtr < old(outPtr)
      ensures LastBreak(old(Pending()), i) && Pending() == old(Pending())[Cut(old(Pending()), i)..]
      ensures 0 <= i ==> !SplitsWord(old(Pending()), Cut(old(Pending()), i))
      ensures Collapse(ReadBack(lines) + Pending()) == old(Collapse(ReadBack(lines) + Pending()))
      ensures |lines| == old(|lines|) + 1 && lines[..|lines| - 1] == old(lines)
    {
      hide Collapse, ReadBack, ReadLine, GoodLine, Plain;
      ghost var before, text := ReadBack(lines), Pending();
      var k: nat := outPtr;
      while k > 0 && buf[k] != ' ' && !(buf[k] == '\\' && buf[k - 1] != '\\')
        invariant 0 <= k <= outPtr && forall j :: k <= j < |text| ==> !Breakable(text, j)
      {
        assert text[k - 1] == buf[k] && (k > 1 ==> text[k - 2] == buf[k - 1]);
        k := k - 1;
      }
      i := k - 1;
      assert k > 0 ==> text[k - 1] == buf[k] && (k > 1 ==> text[k - 2] == buf[k - 1]);
      NoWordSplit(text, i);
      ghost var line: string, blanks: string;
      if k == 0 {
        line, blanks := FlushBuffer(outPtr - 1, true);
        JoinLine(before, old(lines), line, blanks, text, LINE_LENGTH - 1);
        LineOf(line, blanks, text, LINE_LENGTH - 1, true);
      } else if buf[k] == ' ' {
        assert text[k - 1] == ' ';
        line, blanks := FlushBuffer(k, false);
        EndLine(before, old(lines), line, blanks, text, k);
        LineOf(line, blanks, text, k, false);
        assert line + "" == line;
      } else {
        line, blanks := FlushBuffer(k - 1, true);
        JoinLine(before, old(lines), line, blanks, text, k - 1);
        LineOf(line, blanks, text, k - 1, true);
      }
    }

    /** `out`. */
    method Out(c: char)
      requires Valid() && c != '%' && c != '\n'
      modifies this, buf
      ensures Valid() && sent == old(sent) + [c]
      ensures old(outPtr) < 80 ==> lines == old(lines) && Pending() == old(Pending()) + [c]
    {
      hide Collapse, ReadBack;
      if outPtr >= LINE_LENGTH {
        ghost var _ := BreakOut();
      }
      ghost var text := Pending();
      ghost var before := ReadBack(lines);
      outPtr := outPtr + 1;
      buf[outPtr] := c;
      assert Pending() == text + [c];
      CollapseFollowed(before + text, sent, [c]);
      assert before + text + [c] == before + (text + [c]);
      sent := sent + [c];
    }

    /** `out_str`. */
    method OutStr(s: string)
      requires Valid() && '%' !in s && '\n' !in s
      modifies this, buf
      ensures Valid() && sent == old(sent) + s
    {
      for i := 0 to |s|
        invariant Valid() && sent == old(sent) + s[..i]
      {
        Out(s[i]);
        assert s[..i + 1] == s[..i] + [s[i]];
      }
      assert s[..|s|] == s;
    }

    /** `finish_line`; blank says that the input line is empty or blank. */
    method FinishLine(blank: bool)
      requires Valid()
      modifies this, buf
      ensures Valid() && Pending() == ""
      ensures sent == old(sent) + if old(outPtr) > 0 || blank then " " else ""
      ensures |lines| == old(|lines|) + if old(outPtr) > 0 || blank then 1 else 0
    {
      hide Collapse, ReadBack, ReadLine, GoodLine, Plain;
      if outPtr == 0 && !blank { return; }
      ghost var before, text := ReadBack(lines), Pending();
      var line, blanks := FlushBuffer(outPtr, false);
      assert text[..|text|] == text && line + "" == line && Pending() == "";
      LineOf(line, blanks, text, |text|, false);
      CloseLine(before, old(lines), line, blanks, text, sent);
      assert ReadBack(lines) + "" == ReadBack(lines);
      sent := sent + " ";
    }
  }
}
