/**
 How CWEAVE copies a comment: as TeX text with its braces kept in balance, whatever the
 input, and with C text between bars handed to the translator (cweb/cweave.c:1858-1931, 3253-3282).
 */
module Comment {

  // ----- Input and output -----

  /** The line being read, with the blank that stands at `limit`, the next position in it,
   and the lines that `get_line` will bring. */
  datatype Input = Input(line: string, loc: nat, rest: seq<string>)

  datatype Tok = Chr(c: char) | QuotedChar | InnerText

  /** `*loc`; behind the line there is nothing that matters. */
  function Peek(line: string, i: nat): char {
    if i < |line| then line[i] else ' '
  }

  function IsHigh(c: char): bool { c as int > 127 }

  function LineTotal(lines: seq<string>): nat {
    if lines == [] then 0 else 1 + |lines[0]| + LineTotal(lines[1..])
  }

  function Unread(i: Input): nat {
    LineTotal(i.rest) + if i.loc < |i.line| then |i.line| - i.loc else 0
  }

  // ----- Copying -----

  /** What a call of `copy_comment` comes to: the level of braces it returns, 0 at the end of
   the comment; the tokens it adds; and where it leaves the input. */
  datatype Copied = Copied(bal: nat, toks: seq<Tok>, input: Input)

  function Closing(bal: nat): seq<Tok> {
    seq(bal, i => Chr('}'))
  }

  /** The character at loc is copied as these tokens, and copying goes on at level bal. */
  datatype Character = Character(toks: seq<Tok>, next: nat, bal: nat)

  /** One character, neither a bar nor the end of the comment nor an illegal use of `@`. */
  function CopyOne(line: string, loc: nat, bal: nat): (r: Character)
    ensures r.next > loc && (Peek(line, loc) == '\\' && Peek(line, loc + 1) == '@' ==> r.next == loc + 1)
  {
    var c, d := Peek(line, loc), Peek(line, loc + 1);
    var t := (if IsHigh(c) then [QuotedChar] else []) + [Chr(c)];
    if c == '@' then Character(t, loc + 2, bal)
    else if c == '\\' && d != '@' then Character(t + [Chr(d)], loc + 2, bal)
    else if c == '{' then Character(t, loc + 1, bal + 1)
    else if c == '}' then
      if bal > 1 then Character(t, loc + 1, bal - 1) else Character([], loc + 1, bal)
    else Character(t, loc + 1, bal)
  }

  function Copy(isLong: bool, i: Input, bal: nat): Copied
    decreases Unread(i)
  {
    if i.loc >= |i.line| then
      if isLong && i.rest != [] then Copy(isLong, Input(i.rest[0], 0, i.rest[1..]), bal)
      else Copied(0, Closing(bal), if isLong then Input(i.line, 1, []) else i)
    else
      var c, d := i.line[i.loc], Peek(i.line, i.loc + 1);
      if c == '|' then Copied(bal, [], i.(loc := i.loc + 1))
      else if isLong && c == '*' && d == '/' then Copied(0, Closing(bal), i.(loc := i.loc + 2))
      else if c == '@' && d != '@' then Copied(0, [Chr(' ')] + Closing(bal), i)
      else
        var one := CopyOne(i.line, i.loc, bal);
        var more := Copy(isLong, i.(loc := one.next), one.bal);
        more.(toks := one.toks + more.toks)
  }

  /** The cases of `copy_comment`, one at a time. */
  lemma CopyIs(isLong: bool, i: Input, bal: nat)
    ensures i.loc >= |i.line| && isLong && i.rest != []
      ==> Copy(isLong, i, bal) == Copy(isLong, Input(i.rest[0], 0, i.rest[1..]), bal)
    ensures i.loc >= |i.line| && !(isLong && i.rest != [])
      ==> Copy(isLong, i, bal) == Copied(0, Closing(bal), if isLong then Input(i.line, 1, []) else i)
    ensures i.loc < |i.line| ==> (Copy(isLong, i, bal) ==
      var c, d := i.line[i.loc], Peek(i.line, i.loc + 1);
      if c == '|' then Copied(bal, [], i.(loc := i.loc + 1))
      else if isLong && c == '*' && d == '/' then Copied(0, Closing(bal), i.(loc := i.loc + 2))
      else if c == '@' && d != '@' then Copied(0, [Chr(' ')] + Closing(bal), i)
      else
        var one := CopyOne(i.line, i.loc, bal);
        var more := Copy(isLong, i.(loc := one.next), one.bal);
        more.(toks := one.toks + more.toks))
  {
  }

  lemma UnreadDrops(i: Input, next: nat)
    ensures i.loc >= |i.line| && i.rest != [] ==> Unread(Input(i.rest[0], 0, i.rest[1..])) < Unread(i)
    ensures i.loc < |i.line| && i.loc < next ==> Unread(i.(loc := next)) < Unread(i)
  {
  }

  // ----- Braces, as TeX sees them -----

  /** Within depth open groups, perhaps just behind a backslash; closed by the last token; or
   closed before. */
  datatype Level = In(depth: nat, escaped: bool) | Closed | Broken

  function Advance(l: Level, t: Tok): Level {
    if !l.In? then Broken
    else if l.escaped then In(l.depth, false)
    else if t == Chr('\\') then In(l.depth, true)
    else if t == Chr('{') then In(l.depth + 1, false)
    else if t == Chr('}') then if l.depth == 0 then Broken else if l.depth == 1 then Closed else In(l.depth - 1, false)
    else l
  }

  function Scan(l: Level, s: seq<Tok>): Level
    decreases |s|
  {
    if s == [] then l else Scan(Advance(l, s[0]), s[1..])
  }

  lemma {:induction false} ScanMore(l: Level, s: seq<Tok>, t: seq<Tok>)
    ensures Scan(l, s + t) == Scan(Scan(l, s), t)
    decreases |s|
  {
    if s == [] {
      assert s + t == t;
    } else {
      assert (s + t)[1..] == s[1..] + t;
      ScanMore(Advance(l, s[0]), s[1..], t);
    }
  }

  lemma ScanNone(l: Level)
    ensures Scan(l, []) == l
  {
  }

  lemma ScanTwo(l: Level, a: Tok, b: Tok)
    ensures Scan(l, [a]) == Advance(l, a) && Scan(l, [a, b]) == Advance(Advance(l, a), b)
  {
    assert [a, b][1..] == [b];
    assert Scan(Advance(l, a), [b]) == Advance(Advance(l, a), b);
  }

  /** Closing the open groups leaves nothing open and nothing behind. */
  lemma {:induction false} ClosingCloses(bal: nat)
    requires bal > 0
    ensures Scan(In(bal, false), Closing(bal)) == Closed
  {
    var s := Closing(bal);
    if bal == 1 {
      assert s[1..] == [];
    } else {
      assert s[1..] == Closing(bal - 1);
      ClosingCloses(bal - 1);
    }
  }

  /** The level of a call: closed at the end of the comment, and else what it returns. */
  function LevelOf(bal: nat): Level {
    if bal == 0 then Closed else In(bal, false)
  }

  /** What one character does to the level; only a backslash before `@` stays open. */
  lemma CopyOneLevel(line: string, loc: nat, bal: nat, escaped: bool)
    requires bal > 0 && (escaped ==> Peek(line, loc) == '@')
    ensures var one := CopyOne(line, loc, bal);
      && one.bal > 0
      && Scan(In(bal, escaped), one.toks) == In(one.bal, Peek(line, loc) == '\\' && Peek(line, loc + 1) == '@')
  {
    hide Scan;
    var c, d := Peek(line, loc), Peek(line, loc + 1);
    var l, one := In(bal, escaped), CopyOne(line, loc, bal);
    if IsHigh(c) {
      assert one.toks == [QuotedChar, Chr(c)];
      ScanTwo(l, QuotedChar, Chr(c));
    } else if c == '\\' && d != '@' {
      ScanTwo(l, Chr(c), Chr(d));
      assert one.toks == [Chr(c), Chr(d)];
    } else if c == '}' && bal == 1 {
      assert one.toks == [];
      ScanNone(l);
    } else {
      assert one.toks == [Chr(c)];
      ScanTwo(l, Chr(c), Chr(c));
    }
  }

  /** Whatever the input, the copied text keeps the braces in balance, and the last brace of
   the comment is the one that closes it. */
  lemma {:induction false} CopyBalanced(isLong: bool, i: Input, bal: nat, escaped: bool)
    requires bal > 0 && (escaped ==> i.loc < |i.line| && i.line[i.loc] == '@')
    ensures Scan(In(bal, escaped), Copy(isLong, i, bal).toks) == LevelOf(Copy(isLong, i, bal).bal)
    decreases Unread(i)
  {
    hide Scan, CopyOne;
    ScanNone(In(bal, escaped));
    if i.loc >= |i.line| {
      if isLong && i.rest != [] {
        CopyBalanced(isLong, Input(i.rest[0], 0, i.rest[1..]), bal, false);
      } else {
        ClosingCloses(bal);
      }
    } else {
      var c, d := i.line[i.loc], Peek(i.line, i.loc + 1);
      if c == '|' {
      } else if isLong && c == '*' && d == '/' {
        ClosingCloses(bal);
      } else if c == '@' && d != '@' {
        ClosingCloses(bal);
        ScanMore(In(bal, escaped), [Chr(' ')], Closing(bal));
        ScanTwo(In(bal, escaped), Chr(' '), Chr(' '));
      } else {
        var one := CopyOne(i.line, i.loc, bal);
        var more := Copy(isLong, i.(loc := one.next), one.bal);
        CopyOneLevel(i.line, i.loc, bal, escaped);
        CopyBalanced(isLong, i.(loc := one.next), one.bal, c == '\\' && d == '@');
        ScanMore(In(bal, escaped), one.toks, more.toks);
      }
    }
  }

  // ----- What is copied -----

  /** How the characters of a comment are read: `@@`, a backslash and what it escapes, or one character. */
  datatype Unit = DoubleAt | Escape(c: char) | Plain(c: char)

  function Raw(u: Unit): string {
    match u
    case DoubleAt => "@@"
    case Escape(c) => ['\\', c]
    case Plain(c) => [c]
  }

  function RawText(us: seq<Unit>): string {
    if us == [] then "" else Raw(us[0]) + RawText(us[1..])
  }

  /** A unit stands there: neither a bar, nor the end of a long comment, nor a single at sign. */
  ghost predicate UnitAt(isLong: bool, line: string, loc: nat, u: Unit) {
    && loc < |line|
    && var c, d := line[loc], Peek(line, loc + 1);
       match u
       case DoubleAt => c == '@' && d == '@'
       case Escape(e) => c == '\\' && d == e && e != '@'
       case Plain(e) => c == e && e != '@' && e != '|' && (e == '\\' ==> d == '@') && !(isLong && e == '*' && d == '/')
  }

  /** Reading these units leads from i to j; a long comment goes on in the next line. */
  ghost predicate Passes(isLong: bool, i: Input, us: seq<Unit>, j: Input)
    decreases |us|, |i.rest|
  {
    if i.loc >= |i.line| && isLong && i.rest != [] then Passes(isLong, Input(i.rest[0], 0, i.rest[1..]), us, j)
    else if us == [] then j == i
    else UnitAt(isLong, i.line, i.loc, us[0]) && Passes(isLong, i.(loc := i.loc + |Raw(us[0])|), us[1..], j)
  }

  /**
   The tokens for the units: each at sign once, characters above 127 behind a quoting mark unless
   they are escaped, and no unescaped closing brace when only the first group is open.
   */
  function Tokens(us: seq<Unit>, bal: nat): seq<Tok> {
    if us == [] then []
    else match us[0]
      case DoubleAt => [Chr('@')] + Tokens(us[1..], bal)
      case Escape(c) => [Chr('\\'), Chr(c)] + Tokens(us[1..], bal)
      case Plain(c) =>
        if c == '{' then [Chr('{')] + Tokens(us[1..], bal + 1)
        else if c == '}' then (if bal > 1 then [Chr('}')] + Tokens(us[1..], bal - 1) else Tokens(us[1..], bal))
        else (if c as int > 127 then [QuotedChar] else []) + [Chr(c)] + Tokens(us[1..], bal)
  }

  /** How many groups are open behind the units. */
  function Open(us: seq<Unit>, bal: nat): nat {
    if us == [] then bal
    else Open(us[1..], if us[0] == Plain('{') then bal + 1 else if us[0] == Plain('}') && bal > 1 then bal - 1 else bal)
  }

  /** One step of the copying, as the unit that is read. */
  lemma OneUnit(isLong: bool, line: string, loc: nat, bal: nat) returns (u: Unit)
    requires bal > 0 && loc < |line| && line[loc] != '|' && !(isLong && line[loc] == '*' && Peek(line, loc + 1) == '/')
    requires !(line[loc] == '@' && Peek(line, loc + 1) != '@')
    ensures var one := CopyOne(line, loc, bal);
      && UnitAt(isLong, line, loc, u) && one.next == loc + |Raw(u)| && one.bal == Open([u], bal) && one.bal > 0
      && one.toks == Tokens([u], bal)
  {
    var c, d := line[loc], Peek(line, loc + 1);
    var one := CopyOne(line, loc, bal);
    u := if c == '@' then DoubleAt else if c == '\\' && d != '@' then Escape(d) else Plain(c);
    UnitTokens(u, bal);
  }

  lemma UnitTokens(u: Unit, bal: nat)
    ensures Tokens([u], bal)
         == match u
            case DoubleAt => [Chr('@')]
            case Escape(c) => [Chr('\\'), Chr(c)]
            case Plain(c) => if c == '}' && bal <= 1 then [] else (if c as int > 127 then [QuotedChar] else []) + [Chr(c)]
    ensures Open([u], bal) == if u == Plain('{') then bal + 1 else if u == Plain('}') && bal > 1 then bal - 1 else bal
  {
    assert [u][1..] == [];
  }

  lemma TokensCons(u: Unit, us: seq<Unit>, bal: nat)
    ensures Tokens([u] + us, bal) == Tokens([u], bal) + Tokens(us, Open([u], bal))
    ensures Open([u] + us, bal) == Open(us, Open([u], bal))
  {
    UnitTokens(u, bal);
    assert ([u] + us)[1..] == us;
  }

  /** Where a call stops, and what it comes to. */
  ghost predicate Stops(isLong: bool, j: Input, toks: seq<Tok>, open: nat, copied: Copied) {
    if j.loc >= |j.line| then
      copied == Copied(0, toks + Closing(open), if isLong then Input(j.line, 1, []) else j)
    else if j.line[j.loc] == '|' then
      copied == Copied(open, toks, j.(loc := j.loc + 1))
    else if isLong && j.line[j.loc] == '*' && Peek(j.line, j.loc + 1) == '/' then
      copied == Copied(0, toks + Closing(open), j.(loc := j.loc + 2))
    else
      j.line[j.loc] == '@' && Peek(j.line, j.loc + 1) != '@' && copied == Copied(0, toks + [Chr(' ')] + Closing(open), j)
  }

  /**
   What a call of `copy_comment` copies: the tokens for the units from where it starts up to the
   first bar, the end of the comment, or a single at sign, whichever comes first; behind the last
   two come the closing braces that are missing.
   */
  lemma {:induction false} CopyReads(isLong: bool, i: Input, bal: nat) returns (us: seq<Unit>, j: Input)
    requires bal > 0
    ensures Passes(isLong, i, us, j) && (j.loc >= |j.line| && isLong ==> j.rest == [])
    ensures Stops(isLong, j, Tokens(us, bal), Open(us, bal), Copy(isLong, i, bal))
    decreases Unread(i)
  {
    hide CopyOne, Peek, Closing;
    if i.loc >= |i.line| && isLong && i.rest != [] {
      us, j := CopyReads(isLong, Input(i.rest[0], 0, i.rest[1..]), bal);
    } else if i.loc >= |i.line| {
      us, j := [], i;
      assert [] + Closing(bal) == Closing(bal);
    } else {
      var c, d := i.line[i.loc], Peek(i.line, i.loc + 1);
      if c == '|' || (isLong && c == '*' && d == '/') {
        us, j := [], i;
        assert [] + Closing(bal) == Closing(bal);
      } else if c == '@' && d != '@' {
        us, j := [], i;
        assert [] + [Chr(' ')] + Closing(bal) == [Chr(' ')] + Closing(bal);
      } else {
        var u := OneUnit(isLong, i.line, i.loc, bal);
        us, j := CopyReads(isLong, i.(loc := i.loc + |Raw(u)|), Open([u], bal));
        ReadsUnit(isLong, i, bal, u, us, j);
        us := [u] + us;
      }
    }
  }

  /** One unit more. */
  lemma ReadsUnit(isLong: bool, i: Input, bal: nat, u: Unit, us: seq<Unit>, j: Input)
    requires bal > 0 && i.loc < |i.line| && i.line[i.loc] != '|'
    requires !(isLong && i.line[i.loc] == '*' && Peek(i.line, i.loc + 1) == '/')
    requires !(i.line[i.loc] == '@' && Peek(i.line, i.loc + 1) != '@')
    requires UnitAt(isLong, i.line, i.loc, u) && Passes(isLong, i.(loc := i.loc + |Raw(u)|), us, j)
    requires var one := CopyOne(i.line, i.loc, bal);
      one.next == i.loc + |Raw(u)| && one.bal == Open([u], bal) && one.toks == Tokens([u], bal)
    requires Stops(isLong, j, Tokens(us, Open([u], bal)), Open(us, Open([u], bal)), Copy(isLong, i.(loc := i.loc + |Raw(u)|), Open([u], bal)))
    ensures Passes(isLong, i, [u] + us, j) && Stops(isLong, j, Tokens([u] + us, bal), Open([u] + us, bal), Copy(isLong, i, bal))
  {
    hide Copy, CopyOne, Tokens, Open, Passes, Peek, UnitAt, Stops;
    var one := CopyOne(i.line, i.loc, bal);
    var more := Copy(isLong, i.(loc := one.next), one.bal);
    TokensCons(u, us, bal);
    CopyIs(isLong, i, bal);
    PassesCons(isLong, i, u, us, j);
    StopsMore(isLong, j, one.toks, Tokens(us, one.bal), Open(us, one.bal), more);
  }

  lemma PassesCons(isLong: bool, i: Input, u: Unit, us: seq<Unit>, j: Input)
    requires UnitAt(isLong, i.line, i.loc, u) && Passes(isLong, i.(loc := i.loc + |Raw(u)|), us, j)
    ensures Passes(isLong, i, [u] + us, j)
  {
    assert ([u] + us)[1..] == us;
  }

  lemma StopsMore(isLong: bool, j: Input, toks: seq<Tok>, rest: seq<Tok>, open: nat, more: Copied)
    requires Stops(isLong, j, rest, open, more)
    ensures Stops(isLong, j, toks + rest, open, more.(toks := toks + more.toks))
  {
    hide Closing;
    assert toks + (rest + Closing(open)) == (toks + rest) + Closing(open);
    assert toks + (rest + [Chr(' ')] + Closing(open)) == (toks + rest) + [Chr(' ')] + Closing(open);
  }

  /** The characters that are still to be read. */
  function Remaining(isLong: bool, i: Input): string {
    (if i.loc <= |i.line| then i.line[i.loc..] else "") + if isLong then Joined(i.rest) else ""
  }

  function Joined(lines: seq<string>): string {
    if lines == [] then "" else lines[0] + Joined(lines[1..])
  }

  /** Every line ends in the blank at `limit`. */
  ghost predicate Limited(i: Input) {
    && i.line != "" && i.line[|i.line| - 1] == ' '
    && forall k :: 0 <= k < |i.rest| ==> i.rest[k] != "" && i.rest[k][|i.rest[k]| - 1] == ' '
  }

  /** The units are all of the characters that were read, none of them twice. */
  lemma {:induction false} UnitsAreRead(isLong: bool, i: Input, us: seq<Unit>, j: Input)
    requires Passes(isLong, i, us, j) && Limited(i)
    ensures Remaining(isLong, i) == RawText(us) + Remaining(isLong, j) && Limited(j)
    decreases |us|, |i.rest|
  {
    hide Remaining, UnitAt, Raw, Limited;
    if i.loc >= |i.line| && isLong && i.rest != [] {
      NextLineRead(i);
      UnitsAreRead(isLong, Input(i.rest[0], 0, i.rest[1..]), us, j);
    } else if us != [] {
      var i' := i.(loc := i.loc + |Raw(us[0])|);
      UnitIsRead(isLong, i, us[0]);
      UnitsAreRead(isLong, i', us[1..], j);
      assert Raw(us[0]) + (RawText(us[1..]) + Remaining(isLong, j)) == Raw(us[0]) + RawText(us[1..]) + Remaining(isLong, j);
    } else {
      assert "" + Remaining(isLong, j) == Remaining(isLong, j);
    }
  }

  lemma UnitIsRead(isLong: bool, i: Input, u: Unit)
    requires UnitAt(isLong, i.line, i.loc, u) && Limited(i)
    ensures Remaining(isLong, i) == Raw(u) + Remaining(isLong, i.(loc := i.loc + |Raw(u)|))
    ensures Limited(i.(loc := i.loc + |Raw(u)|))
  {
    hide Joined, UnitAt, Raw, Limited;
    var next, more := i.loc + |Raw(u)|, if isLong then Joined(i.rest) else "";
    UnitIsThere(isLong, i, u);
    assert i.line[i.loc..] == i.line[i.loc..next] + i.line[next..];
    assert Raw(u) + i.line[next..] + more == Raw(u) + (i.line[next..] + more);
  }

  lemma UnitIsThere(isLong: bool, i: Input, u: Unit)
    requires UnitAt(isLong, i.line, i.loc, u) && Limited(i)
    ensures i.loc + |Raw(u)| <= |i.line| && i.line[i.loc..i.loc + |Raw(u)|] == Raw(u)
    ensures Limited(i.(loc := i.loc + |Raw(u)|))
  {
    assert i.loc + |Raw(u)| <= |i.line|;
  }

  lemma NextLineRead(i: Input)
    requires Limited(i) && i.loc >= |i.line| && i.rest != []
    ensures var i' := Input(i.rest[0], 0, i.rest[1..]); Limited(i') && Remaining(true, i) == Remaining(true, i')
  {
    hide Joined;
    JoinedFirst(i.rest);
    assert i.rest[0][0..] == i.rest[0];
    assert "" + Joined(i.rest) == Joined(i.rest);
    assert i.loc == |i.line| ==> i.line[i.loc..] == "";
  }

  lemma JoinedFirst(lines: seq<string>)
    requires lines != []
    ensures Joined(lines) == lines[0] + Joined(lines[1..])
  {
  }

  // ----- A whole comment -----

  function Opening(isLong: bool): seq<Tok> {
    if isLong then [Chr('\\'), Chr('C'), Chr('{')] else [Chr('\\'), Chr('S'), Chr('H'), Chr('C'), Chr('{')]
  }

  /** C text between bars. */
  const PART := [Chr('\\'), Chr('P'), Chr('B'), Chr('{'), InnerText, Chr('}')]

  /** The text of a comment, of which the calls of `copy_comment` find the given inputs; when
   there is none for a call, the C text before it did not end with a bar. */
  function Continue(isLong: bool, inputs: seq<Input>, bal: nat): (r: (seq<Tok>, bool)) {
    if inputs == [] then ([], false) else
    var copied := Copy(isLong, inputs[0], bal);
    if copied.bal == 0 then (copied.toks, true) else
    var more := Continue(isLong, inputs[1..], copied.bal);
    (copied.toks + PART + more.0, more.1)
  }

  /** One more call of `copy_comment`, when done has been written of all. */
  lemma ContinueStep(isLong: bool, inputs: seq<Input>, bal: nat, k: nat, done: seq<Tok>, all: (seq<Tok>, bool))
    requires k < |inputs| && all.0 == done + Continue(isLong, inputs[k..], bal).0
    requires all.1 == Continue(isLong, inputs[k..], bal).1
    ensures var copied := Copy(isLong, inputs[k], bal);
      if copied.bal == 0 then all.0 == done + copied.toks && all.1
      else
        && all.0 == done + copied.toks + PART + Continue(isLong, inputs[k + 1..], copied.bal).0
        && all.1 == Continue(isLong, inputs[k + 1..], copied.bal).1
  {
    hide Copy;
    assert inputs[k..][1..] == inputs[k + 1..];
    var copied := Copy(isLong, inputs[k], bal);
    if copied.bal != 0 {
      var more := Continue(isLong, inputs[k + 1..], copied.bal);
      assert done + (copied.toks + PART + more.0) == done + copied.toks + PART + more.0;
    }
  }

  lemma Assoc(a: seq<Tok>, b: seq<Tok>, c: seq<Tok>)
    ensures a + b + c == a + (b + c)
  {
  }

  lemma ContinueNone(isLong: bool, inputs: seq<Input>, bal: nat)
    requires inputs == []
    ensures Continue(isLong, inputs, bal) == ([], false)
  {
  }

  lemma {:induction false} ContinueBalanced(isLong: bool, inputs: seq<Input>, bal: nat)
    requires bal > 0
    ensures Scan(In(bal, false), Continue(isLong, inputs, bal).0) == Closed <==> Continue(isLong, inputs, bal).1
    ensures Scan(In(bal, false), Continue(isLong, inputs, bal).0) != Broken
    decreases |inputs|
  {
    if inputs != [] {
      var copied := Copy(isLong, inputs[0], bal);
      CopyBalanced(isLong, inputs[0], bal, false);
      if copied.bal > 0 {
        var more := Continue(isLong, inputs[1..], copied.bal);
        ContinueBalanced(isLong, inputs[1..], copied.bal);
        PartBalanced(copied.bal);
        ScanMore(In(bal, false), copied.toks, PART);
        ScanMore(In(bal, false), copied.toks + PART, more.0);
      }
    }
  }

  lemma PartBalanced(bal: nat)
    requires bal > 0
    ensures Scan(In(bal, false), PART) == In(bal, false)
  {
    var l := In(bal, false);
    assert Scan(l, PART) == Scan(In(bal, true), PART[1..]) == Scan(l, PART[2..]);
    assert Scan(l, PART[2..]) == Scan(l, PART[3..]) == Scan(In(bal + 1, false), PART[4..]);
    assert Scan(In(bal + 1, false), PART[4..]) == Scan(In(bal + 1, false), PART[5..]) == Scan(l, PART[6..]);
  }

  /** The braces of a comment, its opening included, form exactly one group, if every C text
   in it ends with a bar; and only then. */
  lemma CommentBalanced(isLong: bool, inputs: seq<Input>)
    ensures Scan(In(0, false), Opening(isLong) + Continue(isLong, inputs, 1).0) == Closed
      <==> Continue(isLong, inputs, 1).1
  {
    var l, o := In(0, false), Opening(isLong);
    assert Scan(l, o) == In(1, false) by {
      if isLong {
        assert Scan(l, o) == Scan(In(0, true), o[1..]) == Scan(l, o[2..]) == Scan(In(1, false), o[3..]);
      } else {
        assert Scan(l, o) == Scan(In(0, true), o[1..]) == Scan(l, o[2..]) == Scan(l, o[3..]);
        assert Scan(l, o[3..]) == Scan(l, o[4..]) == Scan(In(1, false), o[5..]);
      }
    }
    ScanMore(l, o, Continue(isLong, inputs, 1).0);
    ContinueBalanced(isLong, inputs, 1);
  }

  // ----- The procedure -----

  datatype Outcome = GoesOn | AtBar | AtEnd

  class Copier {
    const phase: nat
    var line: string
    var loc: nat
    var rest: seq<string>
    var toks: seq<Tok>

    ghost function Position(): Input
      reads this
    {
      Input(line, loc, rest)
    }

    constructor (phase: nat, i: Input)
      ensures this.phase == phase && Position() == i && toks == []
    {
      this.phase := phase;
      line, loc, rest := i.line, i.loc, i.rest;
      toks := [];
    }

    /** `app_tok`, in phase two only. */
    method AppTok(t: Tok)
      modifies this`toks
      ensures toks == old(toks) + Seen([t])
    {
      if phase == 2 { toks := toks + [t]; }
    }

    /** Phase one adds no tokens. */
    ghost function Seen(s: seq<Tok>): seq<Tok> {
      if phase == 2 then s else []
    }

    /** Closes the open groups at the end of a comment. */
    method Close(bal: nat)
      modifies this`toks
      ensures toks == old(toks) + Seen(Closing(bal))
    {
      for i := 0 to bal
        invariant toks == old(toks) + Seen(Closing(i))
      {
        AppTok(Chr('}'));
        assert Closing(i + 1) == Closing(i) + [Chr('}')];
      }
    }

    /** One character: its tokens, its effect on the level, and the tokens taken back. */
    method CopyChar(bal: nat) returns (r: nat)
      requires loc < |line| && !(line[loc] == '@' && Peek(line, loc + 1) != '@')
      modifies this`loc, this`toks
      ensures var one := CopyOne(line, old(loc), bal);
        r == one.bal && loc == one.next && toks == old(toks) + Seen(one.toks)
    {
      var c := line[loc];
      r := bal;
      loc := loc + 1;
      if IsHigh(c) { AppTok(QuotedChar); }
      AppTok(Chr(c));
      if c == '@' {
        loc := loc + 1;
      } else if c == '\\' && Peek(line, loc) != '@' {
        AppTok(Chr(Peek(line, loc)));
        loc := loc + 1;
      }
      if c == '{' {
        r := bal + 1;
      } else if c == '}' {
        if bal > 1 {
          r := bal - 1;
        } else if phase == 2 {
          toks := toks[..|toks| - 1];
        }
      }
    }

    /** A turn of the loop of `copy_comment`: it goes on, stops at a bar, or comes to the end. */
    method Turn(isLong: bool, bal: nat) returns (turn: Outcome, r: nat, ghost added: seq<Tok>)
      modifies this
      ensures toks == old(toks) + Seen(added)
      ensures var all := Copy(isLong, old(Position()), bal);
        match turn
        case GoesOn =>
          var more := Copy(isLong, Position(), r);
          Unread(Position()) < old(Unread(Position())) && all == more.(toks := added + more.toks)
        case AtBar => all == Copied(r, added, Position())
        case AtEnd => all == Copied(0, added + Closing(r), Position())
    {
      hide Copy, CopyOne, Closing, IsHigh, Peek, Unread;
      CopyIs(isLong, Position(), bal);
      UnreadDrops(Position(), CopyOne(line, loc, bal).next);
      r, added := bal, [];
      if loc >= |line| {
        if !isLong { return AtEnd, r, added; }
        if rest == [] {
          loc := 1;
          return AtEnd, r, added;
        }
        line, loc, rest := rest[0], 0, rest[1..];
        return GoesOn, r, added;
      }
      var c := line[loc];
      if c == '|' {
        loc := loc + 1;
        return AtBar, r, added;
      }
      if isLong && c == '*' && Peek(line, loc + 1) == '/' {
        loc := loc + 2;
        return AtEnd, r, added;
      }
      if c == '@' && Peek(line, loc + 1) != '@' {
        AppTok(Chr(' '));
        return AtEnd, r, [Chr(' ')];
      }
      added := CopyOne(line, loc, r).toks;
      r := CopyChar(r);
      turn := GoesOn;
    }

    /** The rest of a call of `copy_comment`: what it comes to, when done has been added. */
    ghost predicate Remains(isLong: bool, turn: Outcome, r: nat, done: seq<Tok>, all: Copied)
      reads this
    {
      match turn
      case GoesOn =>
        var more := Copy(isLong, Position(), r);
        all == more.(toks := done + more.toks)
      case AtBar => all == Copied(r, done, Position())
      case AtEnd => all == Copied(0, done + Closing(r), Position())
    }

    /** `copy_comment`. Both phases read the same characters and return the same level. */
    method CopyComment(isLong: bool, bal: nat) returns (r: nat)
      modifies this
      ensures var copied := Copy(isLong, old(Position()), bal);
        r == copied.bal && Position() == copied.input && toks == old(toks) + Seen(copied.toks)
    {
      hide Copy, Closing, Unread, Seen;
      ghost var all, done := Copy(isLong, Position(), bal), [];
      NoneSeen(all.toks);
      r := bal;
      var turn := GoesOn;
      while turn == GoesOn
        invariant toks == old(toks) + Seen(done)
        invariant Remains(isLong, turn, r, done, all)
        decreases turn == GoesOn, Unread(Position())
      {
        ghost var added: seq<Tok>;
        turn, r, added := Turn(isLong, r);
        SeenMore(done, added);
        Assoc(old(toks), Seen(done), Seen(added));
        Assoc(done, added, Copy(isLong, Position(), r).toks);
        Assoc(done, added, Closing(r));
        done := done + added;
      }
      if turn == AtEnd {
        SeenMore(done, Closing(r));
        Assoc(old(toks), Seen(done), Seen(Closing(r)));
        Close(r);
        r := 0;
      }
    }

    lemma NoneSeen(s: seq<Tok>)
      ensures Seen([]) == [] && [] + s == s
    {
    }

    lemma SeenMore(a: seq<Tok>, b: seq<Tok>)
      ensures Seen(a + b) == Seen(a) + Seen(b)
    {
    }

    method AppPart()
      modifies this`toks
      ensures toks == old(toks) + PART
    {
      toks := toks + PART;
    }

    /** A call of `copy_comment` that finds the given input. */
    method Visit(isLong: bool, i: Input, bal: nat) returns (r: nat)
      requires phase == 2
      modifies this
      ensures r == Copy(isLong, i, bal).bal && toks == old(toks) + Copy(isLong, i, bal).toks
    {
      hide Copy;
      line, loc, rest := i.line, i.loc, i.rest;
      r := CopyComment(isLong, bal);
    }

    /** The comment part of `outer_parse`: the calls of `copy_comment` find the given inputs,
     each but the first after C text that has ended with a bar. */
    method WholeComment(isLong: bool, inputs: seq<Input>) returns (closed: bool)
      requires phase == 2
      modifies this
      ensures toks == old(toks) + Opening(isLong) + Continue(isLong, inputs, 1).0
      ensures closed <==> Continue(isLong, inputs, 1).1
    {
      hide Copy, Continue, Opening, PART;
      toks := toks + Opening(isLong);
      ghost var first, all, done := toks, Continue(isLong, inputs, 1), [];
      var bal, k := 1, 0;
      assert inputs[0..] == inputs;
      while bal > 0 && k < |inputs|
        invariant k <= |inputs| && toks == first + done
        invariant all.0 == done + if bal == 0 then [] else Continue(isLong, inputs[k..], bal).0
        invariant all.1 == if bal == 0 then true else Continue(isLong, inputs[k..], bal).1
        decreases |inputs| - k
      {
        ContinueStep(isLong, inputs, bal, k, done, all);
        ghost var added := Copy(isLong, inputs[k], bal).toks;
        bal := Visit(isLong, inputs[k], bal);
        Assoc(first, done, added);
        done := done + added;
        if bal > 0 {
          AppPart();
          Assoc(first, done, PART);
          done := done + PART;
        }
        k := k + 1;
      }
      if bal > 0 {
        ContinueNone(isLong, inputs[k..], bal);
      }
      closed := bal == 0;
    }
  }
}
