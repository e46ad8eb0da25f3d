/**
 How CTANGLE stores replacement texts: one- and two-byte tokens, and stretches between
 delimiters that are taken byte by byte (cweb/ctangle.c:502-509, 558-587, 760-771,
 803-808, 1209-1281, 1439).
 */
module TangleTokens {
  type Bytes = seq<int>

  const STRING := 2
  const CONSTANT := 3
  const ID_LIMIT := 10240       // 024000
  const DEFS_FLAG := 20479      // output_defs_flag, 2*024000-1
  const NUMBER_BASE := 53248    // 0150000

  /** What `scan_repl` and `scan_section` store. */
  datatype Item =
    | Plain(c: int)
    | Ident(n: int)
    | SecRef(n: int)
    | Defs
    | SecNum(n: int)
    | Line(line: int, file: int)
    | Quoted(delim: int, content: Bytes)
    | Broken

  predicate IsByte(b: int) { 0 <= b < 256 }

  predicate IsDelim(b: int) { b == STRING || b == CONSTANT }

  ghost predicate AllBytes(bs: Bytes) {
    forall i :: 0 <= i < |bs| ==> IsByte(bs[i])
  }

  ghost predicate Clean(bs: Bytes) {
    forall i :: 0 <= i < |bs| ==> IsByte(bs[i]) && !IsDelim(bs[i])
  }

  /** The items that can be stored. Section references stop short of output_defs_flag. */
  ghost predicate Storable(x: Item) {
    match x
    case Plain(c) => 0 <= c < 128 && !IsDelim(c)
    case Ident(n) => 0 <= n < ID_LIMIT
    case SecRef(n) => 0 <= n < ID_LIMIT - 1
    case Defs => true
    case SecNum(n) => 0 < n < 12288
    case Line(line, file) => 0 <= line < 65536 && 0 <= file < ID_LIMIT
    case Quoted(d, content) => IsDelim(d) && Clean(content)
    case Broken => false
  }

  /** The bytes appended for one item. */
  function Encode(x: Item): Bytes {
    match x
    case Plain(c) => [c]
    case Ident(n) => [n / 256 + 128, n % 256]
    case SecRef(n) => [n / 256 + 168, n % 256]
    case Defs => [DEFS_FLAG / 256 + 128, DEFS_FLAG % 256]
    case SecNum(n) => TwoBytes(NUMBER_BASE + n)
    case Line(line, file) => TwoBytes(NUMBER_BASE) + TwoBytes(line) + [file / 256 + 128, file % 256]
    case Quoted(d, content) => [d] + content + [d]
    case Broken => []
  }

  /** `store_two_bytes`. */
  function TwoBytes(x: int): Bytes {
    [x / 256, x % 256]
  }

  function EncodeAll(items: seq<Item>): Bytes {
    if items == [] then [] else Encode(items[0]) + EncodeAll(items[1..])
  }

  /** Whether the decoder is between delimiters (out_state==verbatim), and what it has seen. */
  datatype Mode = Normal | Verbatim(delim: int, seen: Bytes)

  /** What a two-byte code outside delimiters stands for. */
  function TwoByteItem(a: int): Item {
    if a < ID_LIMIT then Ident(a)
    else if a < 2 * ID_LIMIT then (if a == DEFS_FLAG then Defs else SecRef(a - ID_LIMIT))
    else SecNum(a - 2 * ID_LIMIT)
  }

  /** The decoder of `get_output` and `out_char`, as a function of the bytes left. */
  ghost function Decode(bs: Bytes, mode: Mode): seq<Item>
    decreases |bs|
  {
    if bs == [] then (if mode.Normal? then [] else [Broken])
    else
      var a := bs[0];
      match mode
      case Verbatim(d, seen) =>
        if IsDelim(a) then [Quoted(d, seen)] + Decode(bs[1..], Normal)
        else Decode(bs[1..], Verbatim(d, seen + [a]))
      case Normal =>
        if IsDelim(a) then Decode(bs[1..], Verbatim(a, []))
        else if a < 128 then [Plain(a)] + Decode(bs[1..], Normal)
        else if |bs| < 2 then [Broken]
        else
          var x := TwoByteItem((a - 128) * 256 + bs[1]);
          if x != SecNum(0) then [x] + Decode(bs[2..], Normal)
          else if |bs| < 6 then [Broken]
          else [Line(bs[2] * 256 + bs[3], (bs[4] - 128) * 256 + bs[5])] + Decode(bs[6..], Normal)
  }

  // The cases of the decoder, one at a time.

  lemma DecodeByte(bs: Bytes)
    requires bs != [] && (IsDelim(bs[0]) || bs[0] < 128)
    ensures Decode(bs, Normal)
         == if IsDelim(bs[0]) then Decode(bs[1..], Verbatim(bs[0], [])) else [Plain(bs[0])] + Decode(bs[1..], Normal)
  {
  }

  lemma DecodeVerbatim(bs: Bytes, d: int, seen: Bytes)
    requires bs != []
    ensures Decode(bs, Verbatim(d, seen))
         == if IsDelim(bs[0]) then [Quoted(d, seen)] + Decode(bs[1..], Normal)
            else Decode(bs[1..], Verbatim(d, seen + [bs[0]]))
  {
  }

  lemma DecodePair(bs: Bytes)
    requires bs != [] && !IsDelim(bs[0]) && bs[0] >= 128
    ensures |bs| < 2 ==> Decode(bs, Normal) == [Broken]
    ensures |bs| >= 2 ==>
      var x := TwoByteItem((bs[0] - 128) * 256 + bs[1]);
      && (x != SecNum(0) ==> Decode(bs, Normal) == [x] + Decode(bs[2..], Normal))
      && (x == SecNum(0) && |bs| < 6 ==> Decode(bs, Normal) == [Broken])
      && (x == SecNum(0) && |bs| >= 6 ==>
            Decode(bs, Normal) == [Line(bs[2] * 256 + bs[3], (bs[4] - 128) * 256 + bs[5])] + Decode(bs[6..], Normal))
  {
  }

  lemma DecodeEnd(mode: Mode)
    ensures Decode([], mode) == if mode.Normal? then [] else [Broken]
  {
  }

  /** One turn of the decoder at position i: the items it adds, the next position and mode,
   and whether the text breaks off here. */
  method Next(bs: Bytes, i: nat, mode: Mode) returns (added: seq<Item>, next: nat, mode': Mode, broken: bool)
    requires i < |bs|
    ensures i < next <= |bs|
    ensures Decode(bs[i..], mode) == added + if broken then [] else Decode(bs[next..], mode')
  {
    hide Decode;
    var a := bs[i];
    added, next, mode', broken := [], i + 1, Normal, false;
    ghost var rest := bs[i..];
    assert rest[1..] == bs[i + 1..];
    if mode.Verbatim? {
      DecodeVerbatim(rest, mode.delim, mode.seen);
      if IsDelim(a) {
        added := [Quoted(mode.delim, mode.seen)];
      } else {
        mode' := Verbatim(mode.delim, mode.seen + [a]);
      }
    } else if IsDelim(a) {
      DecodeByte(rest);
      mode' := Verbatim(a, []);
    } else if a < 128 {
      DecodeByte(rest);
      added := [Plain(a)];
    } else {
      DecodePair(rest);
      if i + 1 == |bs| { return [Broken], |bs|, mode, true; }
      var x := TwoByteItem((a - 128) * 256 + bs[i + 1]);
      if x != SecNum(0) {
        assert rest[2..] == bs[i + 2..];
        added, next := [x], i + 2;
      } else if i + 6 > |bs| {
        return [Broken], |bs|, mode, true;
      } else {
        assert rest[6..] == bs[i + 6..];
        added := [Line(bs[i + 2] * 256 + bs[i + 3], (bs[i + 4] - 128) * 256 + bs[i + 5])];
        next := i + 6;
      }
    }
  }

  /** The decoder as a loop over the text. */
  method DecodeText(bs: Bytes) returns (items: seq<Item>)
    ensures items == Decode(bs, Normal)
  {
    hide Decode;
    items := [];
    var i, mode, broken := 0, Normal, false;
    assert bs[0..] == bs;
    while i < |bs| && !broken
      invariant 0 <= i <= |bs|
      invariant items + (if broken then [] else Decode(bs[i..], mode)) == Decode(bs, Normal)
      decreases |bs| - i
    {
      var added, next, mode';
      added, next, mode', broken := Next(bs, i, mode);
      Assoc(items, added, if broken then [] else Decode(bs[next..], mode'));
      items, i, mode := items + added, next, mode';
    }
    if !broken {
      assert bs[i..] == [];
      DecodeEnd(mode);
      if mode.Verbatim? { items := items + [Broken]; }
    }
  }

  lemma Assoc(a: seq<Item>, b: seq<Item>, c: seq<Item>)
    ensures a + b + c == a + (b + c)
  {
  }

  /** Lead bytes: 0200-0247 identifiers, 0250-0317 sections and @h, 0320 and up numbers. */
  lemma TwoByteRoundTrip(x: Item)
    requires Storable(x) && (x.Ident? || x.SecRef? || x.Defs? || x.SecNum?)
    ensures var bs := Encode(x);
      && |bs| == 2 && AllBytes(bs) && 128 <= bs[0]
      && TwoByteItem((bs[0] - 128) * 256 + bs[1]) == x
    ensures var bs := Encode(x);
      match x
      case Ident(_) => bs[0] < 168
      case SecNum(_) => 208 <= bs[0]
      case _ => 168 <= bs[0] < 208
  {
  }

  lemma {:induction false} VerbatimRun(content: Bytes, d: int, seen: Bytes, e: int, rest: Bytes)
    requires Clean(content) && IsDelim(e)
    ensures Decode(content + [e] + rest, Verbatim(d, seen)) == [Quoted(d, seen + content)] + Decode(rest, Normal)
    decreases |content|
  {
    var bs := content + [e] + rest;
    if content == [] {
      assert bs[1..] == rest && seen + content == seen;
    } else {
      assert bs[1..] == content[1..] + [e] + rest;
      VerbatimRun(content[1..], d, seen + [content[0]], e, rest);
      assert seen + [content[0]] + content[1..] == seen + content;
    }
  }

  lemma PairRoundTrip(x: Item, rest: Bytes)
    requires Storable(x) && (x.Ident? || x.SecRef? || x.Defs? || x.SecNum?)
    ensures Decode(Encode(x) + rest, Normal) == [x] + Decode(rest, Normal)
  {
    hide Decode, Encode, TwoByteItem;
    TwoByteRoundTrip(x);
    var bs := Encode(x) + rest;
    assert bs[2..] == rest;
    DecodePair(bs);
  }

  lemma LineRoundTrip(line: int, file: int, rest: Bytes)
    requires Storable(Line(line, file))
    ensures Decode(Encode(Line(line, file)) + rest, Normal) == [Line(line, file)] + Decode(rest, Normal)
  {
    hide Decode;
    var bs := Encode(Line(line, file)) + rest;
    assert bs[0] == 208 && bs[1] == 0 && bs[6..] == rest;
    assert bs[2] * 256 + bs[3] == line && (bs[4] - 128) * 256 + bs[5] == file;
    DecodePair(bs);
  }

  /** One stored item is read back, whatever follows. */
  lemma ItemRoundTrip(x: Item, rest: Bytes)
    requires Storable(x)
    ensures Decode(Encode(x) + rest, Normal) == [x] + Decode(rest, Normal)
  {
    hide Decode;
    var bs := Encode(x) + rest;
    match x
    case Plain(c) =>
      assert bs[1..] == rest;
      DecodeByte(bs);
    case Quoted(d, content) =>
      assert bs[1..] == content + [d] + rest;
      DecodeByte(bs);
      VerbatimRun(content, d, [], d, rest);
      assert [] + content == content;
    case Line(line, file) =>
      LineRoundTrip(line, file, rest);
    case Ident(_) => PairRoundTrip(x, rest);
    case SecRef(_) => PairRoundTrip(x, rest);
    case Defs => PairRoundTrip(x, rest);
    case SecNum(_) => PairRoundTrip(x, rest);
  }

  /** Every stored replacement text is split back into the items it was made of. */
  lemma {:induction false} RoundTrip(items: seq<Item>)
    requires forall i :: 0 <= i < |items| ==> Storable(items[i])
    ensures Decode(EncodeAll(items), Normal) == items
  {
    if items != [] {
      RoundTrip(items[1..]);
      ItemRoundTrip(items[0], EncodeAll(items[1..]));
    }
  }

  /** The bound on section references is exact: the next one reads as @h. */
  lemma SecRefBound(n: int)
    requires 0 <= n < ID_LIMIT
    ensures Decode(Encode(SecRef(n)), Normal) == [SecRef(n)] <==> n < ID_LIMIT - 1
    ensures Encode(SecRef(ID_LIMIT - 1)) == Encode(Defs)
  {
    var bs := Encode(SecRef(n));
    if n < ID_LIMIT - 1 {
      ItemRoundTrip(SecRef(n), []);
      assert bs + [] == bs;
    } else {
      ItemRoundTrip(Defs, []);
      assert Encode(Defs) + [] == Encode(Defs) == bs;
      assert Decode(bs, Normal)[0] == Defs && [SecRef(n)][0] != Defs;
    }
  }

  /** A delimiter inside a quoted stretch ends it early. */
  lemma DelimiterInside(d: int, content: Bytes)
    requires IsDelim(d) && forall i :: 0 <= i < |content| ==> IsByte(content[i])
    ensures Decode(Encode(Quoted(d, content)), Normal) == [Quoted(d, content)] <==> Clean(content)
  {
    hide Decode;
    if Clean(content) {
      ItemRoundTrip(Quoted(d, content), []);
      assert Encode(Quoted(d, content)) + [] == Encode(Quoted(d, content));
      NothingLeft();
    } else {
      var k := FirstDelim(content);
      EndsEarly(d, content, k);
      assert Decode(Encode(Quoted(d, content)), Normal)[0] != [Quoted(d, content)][0];
    }
  }

  lemma NothingLeft()
    ensures Decode([], Normal) == []
  {
  }

  lemma EndsEarly(d: int, content: Bytes, k: nat)
    requires IsDelim(d) && k < |content| && IsDelim(content[k]) && Clean(content[..k])
    ensures Decode(Encode(Quoted(d, content)), Normal)
         == [Quoted(d, content[..k])] + Decode(content[k + 1..] + [d], Normal)
  {
    var bs, rest := Encode(Quoted(d, content)), content[k + 1..] + [d];
    assert bs[0] == d && bs[1..] == content[..k] + [content[k]] + rest;
    assert Decode(bs, Normal) == Decode(bs[1..], Verbatim(d, []));
    VerbatimRun(content[..k], d, [], content[k], rest);
    assert [] + content[..k] == content[..k];
  }

  lemma FirstDelim(content: Bytes) returns (k: nat)
    requires !Clean(content) && forall i :: 0 <= i < |content| ==> IsByte(content[i])
    ensures k < |content| && IsDelim(content[k]) && Clean(content[..k])
  {
    k := 0;
    assert content[..|content|] == content;
    while !IsDelim(content[k])
      invariant k < |content| && Clean(content[..k])
      decreases |content| - k
    {
      assert content[..k + 1] == content[..k] + [content[k]];
      k := k + 1;
    }
  }
}
