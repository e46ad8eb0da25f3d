/**
 The name directory shared by both programs: identifiers in hash chains, section names in
 a binary tree and their later pieces in chunk chains, all through one `link` field and
 one byte pool (cweb/common.c:687-991, cweb/ctangle.c:478-485).
 */
module NameDirectory {
  import opened NameOrder

  const NULL := -1
  const BLANK := 32
  const HASH_SIZE := 353

  /** An entry of name_dir; `link` is also llink. Entry 0 ends chunk chains and holds root. */
  datatype Name = Name(start: nat, link: int, rlink: int)

  /** byte_mem[..byte_ptr], name_dir[..name_ptr+1] and hash. */
  datatype Dir = Dir(bytes: Bytes, names: seq<Name>, hash: seq<int>) {
    ghost predicate Layout() {
      && 2 <= |names| && |hash| == HASH_SIZE
      && (forall i, j :: 0 <= i <= j < |names| ==> names[i].start <= names[j].start)
      && names[|names| - 1].start == |bytes|
    }

    /** name_ptr, the first free entry. */
    function Free(): int {
      |names| - 1
    }

    ghost function Span(i: nat): Bytes
      requires Layout() && i < Free()
    {
      bytes[names[i].start..names[i + 1].start]
    }
  }

  // ----- What the directory stands for -----

  /** What is known of a section name: the key it is found under, its text so far. */
  datatype Sec = Sec(key: Bytes, text: Bytes, complete: bool)

  /** What an entry is used for; parts of a section name know whose they are. */
  datatype Kind = Top | Id | SecNode | Part(owner: nat)

  datatype Shadow = Shadow(kinds: seq<Kind>, tree: Tree, secs: map<nat, Sec>,
                           parts: map<nat, seq<nat>>, chains: seq<seq<nat>>)

  /** A chunk that ends in a blank is to be continued; the blank is not part of it. */
  predicate Open(s: Bytes) {
    s != [] && s[|s| - 1] == BLANK
  }

  function Strip(s: Bytes): Bytes {
    if Open(s) then s[..|s| - 1] else s
  }

  ghost predicate Within(d: Dir, part: seq<nat>) {
    forall i :: 0 <= i < |part| ==> part[i] < d.Free()
  }

  ghost function PartsText(d: Dir, part: seq<nat>): Bytes
    requires d.Layout() && Within(d, part)
  {
    if part == [] then [] else Strip(d.Span(part[0])) + PartsText(d, part[1..])
  }

  /** The chunk chain: linked in order, ending in entry 0, always forward in the directory. */
  ghost predicate Linked(d: Dir, chain: seq<nat>) {
    && (forall i :: 0 <= i < |chain| ==> 0 < chain[i] < d.Free())
    && (forall i, j :: 0 <= i < j < |chain| ==> chain[i] < chain[j])
    && forall i :: 0 <= i < |chain| ==>
         d.names[chain[i]].link == if i + 1 < |chain| then chain[i + 1] else 0
  }

  /** Every chunk but the last is open, and an open chunk has text before its blank. */
  ghost predicate ChunksOk(d: Dir, part: seq<nat>)
    requires d.Layout() && Within(d, part)
  {
    && (forall i :: 0 <= i < |part| - 1 ==> Open(d.Span(part[i])))
    && forall i :: 0 <= i < |part| ==> Open(d.Span(part[i])) ==> 2 <= |d.Span(part[i])|
  }

  /** The first bytes of a section name: the length of its key, then the first chunk. */
  ghost predicate HeadOk(d: Dir, p: nat, key: Bytes)
    requires d.Layout()
  {
    && 0 < p < d.Free() && 2 <= |d.Span(p)|
    && var span := d.Span(p);
       && 0 <= span[0] && 0 <= span[1] < 256 && |key| == span[0] * 256 + span[1]
       && (key == [] <==> |span| == 2) && key <= Strip(span[2..])
  }

  /** The later pieces of a name whose first chunk is `chunk`. */
  ghost predicate TailOk(d: Dir, p: nat, chunk: Bytes, sec: Sec, part: seq<nat>)
    requires d.Layout()
  {
    && p + 1 < d.Free()
    && Linked(d, [p + 1] + part) && Within(d, part)
    && ChunksOk(d, part)
    && sec.text == Strip(chunk) + PartsText(d, part)
    && (sec.complete <==> part != [] && !Open(d.Span(part[|part| - 1])))
  }

  /** Entry p holds the section name `sec`, with later pieces in the entries `part`. */
  ghost predicate Holds(d: Dir, p: nat, sec: Sec, part: seq<nat>)
    requires d.Layout()
  {
    && HeadOk(d, p, sec.key)
    && var chunk := d.Span(p)[2..];
       if Open(chunk) then TailOk(d, p, chunk, sec, part)
       else part == [] && sec.text == chunk && sec.complete
  }

  ghost predicate Shape(names: seq<Name>, ptr: int, t: Tree)
    decreases t
  {
    match t
    case Nil => ptr == NULL
    case Node(p, l, r) =>
      ptr == p && p < |names| && Shape(names, names[p].link, l) && Shape(names, names[p].rlink, r)
  }

  ghost function Keys(secs: map<nat, Sec>): map<nat, Bytes> {
    map p | p in secs :: secs[p].key
  }

  /** The hash chain starting at ptr. */
  ghost predicate Chained(names: seq<Name>, ptr: int, chain: seq<nat>)
    decreases |chain|
  {
    if chain == [] then ptr == NULL
    else ptr == chain[0] && chain[0] < |names| && Chained(names, names[chain[0]].link, chain[1..])
  }

  function HashFrom(s: Bytes, i: nat, h: int): int
    requires i <= |s|
    decreases |s| - i
  {
    if i == |s| then h else HashFrom(s, i + 1, (h + h + s[i]) % HASH_SIZE)
  }

  ghost predicate IsName(s: Bytes) {
    s != [] && forall i :: 0 <= i < |s| ==> 0 <= s[i] < 256
  }

  function Hash(s: Bytes): (h: nat)
    requires IsName(s)
    ensures h < HASH_SIZE
  {
    HashBound(s, 1, s[0]);
    HashFrom(s, 1, s[0])
  }

  lemma {:induction false} HashBound(s: Bytes, i: nat, h: int)
    requires IsName(s) && i <= |s| && 0 <= h < HASH_SIZE
    ensures 0 <= HashFrom(s, i, h) < HASH_SIZE
    decreases |s| - i
  {
    if i < |s| { HashBound(s, i + 1, (h + h + s[i]) % HASH_SIZE); }
  }

  /** Each entry has one use. */
  ghost predicate KindsOk(d: Dir, g: Shadow)
    requires d.Layout()
  {
    && |g.kinds| == d.Free() && g.kinds[0] == Top
    && (forall p :: 0 <= p < |g.kinds| ==> (g.kinds[p] == SecNode <==> p in g.secs))
    && (forall p :: p in g.secs ==> p < |g.kinds|)
    && g.parts.Keys == g.secs.Keys
    && (forall p :: p in g.secs ==> Holds(d, p, g.secs[p], g.parts[p]) && OwnsParts(d, g, p))
  }

  ghost predicate OwnsParts(d: Dir, g: Shadow, p: nat)
    requires d.Layout() && p in g.parts && p < d.Free() && |g.kinds| == d.Free()
  {
    && (2 <= |d.Span(p)| && Open(d.Span(p)[2..]) ==> p + 1 < d.Free() && g.kinds[p + 1] == Part(p))
    && forall i :: 0 <= i < |g.parts[p]| ==> g.parts[p][i] < d.Free() && g.kinds[g.parts[p][i]] == Part(p)
  }

  /** The tree of section names: its shape in the links, and its order. */
  ghost predicate TreeOk(d: Dir, g: Shadow) {
    && 0 < |d.names| && Shape(d.names, d.names[0].rlink, g.tree)
    && Nodes(g.tree) == g.secs.Keys && Distinct(g.tree) && Ordered(Keys(g.secs), g.tree)
  }

  /** The hash chains: every identifier is in the chain of its hash code, and only there. */
  ghost predicate HashOk(d: Dir, g: Shadow)
    requires d.Layout()
  {
    && |g.kinds| == d.Free() && |g.chains| == HASH_SIZE
    && (forall h :: 0 <= h < HASH_SIZE ==> Chained(d.names, d.hash[h], g.chains[h]) && ChainOk(d, g, h))
    && (forall p :: 0 <= p < d.Free() && g.kinds[p] == Id ==>
          IsName(d.Span(p)) && p in g.chains[Hash(d.Span(p))])
    && (forall p, q ::
          (0 <= p < d.Free() && 0 <= q < d.Free() && g.kinds[p] == Id && g.kinds[q] == Id && d.Span(p) == d.Span(q))
          ==> p == q)
  }

  ghost predicate ChainOk(d: Dir, g: Shadow, h: nat)
    requires d.Layout() && h < |g.chains| && |g.kinds| == d.Free()
  {
    forall i :: 0 <= i < |g.chains[h]| ==>
      var p := g.chains[h][i];
      0 < p < d.Free() && g.kinds[p] == Id && IsName(d.Span(p)) && Hash(d.Span(p)) == h
  }

  ghost predicate Inv(d: Dir, g: Shadow) {
    d.Layout() && KindsOk(d, g) && TreeOk(d, g) && HashOk(d, g)
  }

  // ----- Growth -----

  /** Entries are only added, and the bytes of the old ones stay. */
  ghost predicate Grows(d: Dir, d': Dir) {
    && d.Layout() && d'.Layout() && |d.names| <= |d'.names| && d.bytes <= d'.bytes
    && forall i :: 0 <= i < |d.names| ==> d'.names[i].start == d.names[i].start
  }

  lemma GrowsSpan(d: Dir, d': Dir, i: nat)
    requires Grows(d, d') && i < d.Free()
    ensures d'.Span(i) == d.Span(i)
  {
    assert d.names[i].start <= d.names[i + 1].start <= d.names[|d.names| - 1].start;
  }

  /** The entries of a list have the same bytes and links in both directories. */
  ghost predicate SameEntries(d: Dir, d': Dir, chain: seq<nat>)
    requires d.Layout() && d'.Layout()
  {
    forall i :: 0 <= i < |chain| ==>
      && chain[i] < d.Free() && chain[i] < d'.Free()
      && d'.Span(chain[i]) == d.Span(chain[i]) && d'.names[chain[i]].link == d.names[chain[i]].link
  }

  lemma {:induction false} PartsTextFrame(d: Dir, d': Dir, part: seq<nat>)
    requires d.Layout() && d'.Layout() && Within(d, part) && SameEntries(d, d', part)
    ensures Within(d', part) && PartsText(d', part) == PartsText(d, part)
  {
    if part != [] {
      PartsTextFrame(d, d', part[1..]);
    }
  }

  lemma LinkedFrame(d: Dir, d': Dir, chain: seq<nat>)
    requires d.Layout() && d'.Layout() && Linked(d, chain) && SameEntries(d, d', chain)
    ensures Linked(d', chain)
  {
  }

  lemma TailFrame(d: Dir, d': Dir, p: nat, chunk: Bytes, sec: Sec, part: seq<nat>)
    requires d.Layout() && d'.Layout() && d.Free() <= d'.Free() && TailOk(d, p, chunk, sec, part)
    requires SameEntries(d, d', [p + 1] + part)
    ensures TailOk(d', p, chunk, sec, part)
  {
    hide Dir.Layout, Linked, Strip, Open;
    var chain := [p + 1] + part;
    LinkedFrame(d, d', chain);
    forall i | 0 <= i < |part|
      ensures part[i] < d.Free() && d'.Span(part[i]) == d.Span(part[i]) && d'.names[part[i]].link == d.names[part[i]].link
    {
      assert chain[i + 1] == part[i];
    }
    PartsTextFrame(d, d', part);
  }

  /** A section name survives whatever leaves its own entries alone. */
  lemma HoldsFrame(d: Dir, d': Dir, p: nat, sec: Sec, part: seq<nat>)
    requires d.Layout() && d'.Layout() && d.Free() <= d'.Free() && Holds(d, p, sec, part)
    requires d'.Span(p) == d.Span(p)
    requires Open(d.Span(p)[2..]) ==> SameEntries(d, d', [p + 1] + part)
    ensures Holds(d', p, sec, part)
  {
    hide Dir.Layout, TailOk, SameEntries, Open, Strip;
    if Open(d.Span(p)[2..]) {
      TailFrame(d, d', p, d.Span(p)[2..], sec, part);
    }
  }

  lemma {:induction false} ShapeFrame(names: seq<Name>, names': seq<Name>, ptr: int, t: Tree)
    requires Shape(names, ptr, t) && |names| <= |names'|
    requires forall x :: x in Nodes(t) && x < |names| ==> names'[x].link == names[x].link && names'[x].rlink == names[x].rlink
    ensures Shape(names', ptr, t)
    decreases t
  {
    match t
    case Nil =>
    case Node(p, l, r) =>
      ShapeFrame(names, names', names[p].link, l);
      ShapeFrame(names, names', names[p].rlink, r);
  }

  lemma {:induction false} ChainedFrame(names: seq<Name>, names': seq<Name>, ptr: int, chain: seq<nat>)
    requires Chained(names, ptr, chain) && |names| <= |names'|
    requires forall i :: 0 <= i < |chain| ==> chain[i] < |names| ==> names'[chain[i]].link == names[chain[i]].link
    ensures Chained(names', ptr, chain)
    decreases |chain|
  {
    if chain != [] {
      assert names'[chain[0]].link == names[chain[0]].link;
      ChainedFrame(names, names', names[chain[0]].link, chain[1..]);
    }
  }

  /** Every section name but `except_` survives when only other entries' links change. */
  lemma SecsFrame(d: Dir, d': Dir, g: Shadow, g': Shadow, p: nat)
    requires d.Layout() && d'.Layout() && d.Free() <= d'.Free() && KindsOk(d, g) && p in g.secs
    requires |g'.kinds| == d'.Free() && g.kinds <= g'.kinds && p in g'.parts && g'.parts[p] == g.parts[p]
    requires d'.Span(p) == d.Span(p)
    requires forall q :: 0 <= q < d.Free() && g.kinds[q] == Part(p) ==>
      d'.Span(q) == d.Span(q) && d'.names[q].link == d.names[q].link
    ensures Holds(d', p, g.secs[p], g.parts[p]) && OwnsParts(d', g', p)
  {
    hide Dir.Layout, Holds;
    var part := g.parts[p];
    assert Holds(d, p, g.secs[p], part) && OwnsParts(d, g, p);
    HoldsBounds(d, p, g.secs[p], part);
    if Open(d.Span(p)[2..]) {
      var chain := [p + 1] + part;
      forall i | 0 <= i < |chain| ensures chain[i] < d.Free() && g.kinds[chain[i]] == Part(p) {
        if i > 0 { assert chain[i] == part[i - 1]; }
      }
    }
    HoldsFrame(d, d', p, g.secs[p], part);
  }

  lemma HoldsBounds(d: Dir, p: nat, sec: Sec, part: seq<nat>)
    requires d.Layout() && Holds(d, p, sec, part)
    ensures p < d.Free() && 2 <= |d.Span(p)| && sec.key <= sec.text
  {
    assert Strip(d.Span(p)[2..]) <= sec.text;
  }

  // ----- A new identifier -----

  function WithId(d: Dir, h: nat, s: Bytes): Dir
    requires 0 < |d.names| && h < |d.hash|
  {
    var n := d.Free();
    Dir(d.bytes + s, d.names[n := d.names[n].(link := d.hash[h])] + [Name(|d.bytes + s|, NULL, NULL)], d.hash[h := n])
  }

  ghost function ShadowWithId(g: Shadow, h: nat): Shadow
    requires h < |g.chains|
  {
    g.(kinds := g.kinds + [Id], chains := g.chains[h := [|g.kinds|] + g.chains[h]])
  }

  lemma WithIdGrows(d: Dir, h: nat, s: Bytes)
    requires d.Layout() && h < HASH_SIZE
    ensures var d' := WithId(d, h, s);
      && Grows(d, d') && d'.Free() == d.Free() + 1 && d'.Span(d.Free()) == s
      && (forall i :: 0 <= i < d.Free() ==> d'.Span(i) == d.Span(i) && d'.names[i] == d.names[i])
  {
    var d' := WithId(d, h, s);
    assert d'.bytes[|d.bytes|..] == s;
    forall i | 0 <= i < d.Free() ensures d'.Span(i) == d.Span(i) && d'.names[i] == d.names[i] {
      GrowsSpan(d, d', i);
    }
  }

  lemma WithIdKinds(d: Dir, g: Shadow, h: nat, s: Bytes)
    requires Inv(d, g) && h < HASH_SIZE
    ensures WithId(d, h, s).Layout() && KindsOk(WithId(d, h, s), ShadowWithId(g, h))
  {
    hide Dir.Layout, Holds, OwnsParts, TreeOk, HashOk;
    LayoutHash(d);
    HashLengths(d, g);
    var d', g' := WithId(d, h, s), ShadowWithId(g, h);
    WithIdGrows(d, h, s);
    forall p | p in g.secs ensures Holds(d', p, g.secs[p], g.parts[p]) && OwnsParts(d', g', p) {
      SecsFrame(d, d', g, g', p);
    }
  }

  lemma LayoutHash(d: Dir)
    requires d.Layout()
    ensures |d.hash| == HASH_SIZE && 2 <= |d.names|
  {
  }

  lemma HashLengths(d: Dir, g: Shadow)
    requires d.Layout() && HashOk(d, g)
    ensures |g.kinds| == d.Free() && |g.chains| == HASH_SIZE
  {
  }

  /** The tree survives growth that leaves the links of its nodes alone. */
  lemma TreeFrame(d: Dir, d': Dir, g: Shadow, g': Shadow)
    requires TreeOk(d, g) && |d.names| <= |d'.names| && g'.tree == g.tree && g'.secs == g.secs
    requires forall p :: p in g.secs && p < |d.names| ==>
      d'.names[p].link == d.names[p].link && d'.names[p].rlink == d.names[p].rlink
    requires d'.names[0].rlink == d.names[0].rlink
    ensures TreeOk(d', g')
  {
    hide Distinct, Ordered;
    ShapeFrame(d.names, d'.names, d.names[0].rlink, g.tree);
  }

  lemma SecsClosed(d: Dir, g: Shadow)
    requires d.Layout() && KindsOk(d, g)
    ensures |g.kinds| == d.Free() && forall p :: p in g.secs ==> 0 < p < d.Free()
  {
    hide Dir.Layout, OwnsParts;
    forall p | p in g.secs ensures 0 < p < d.Free() { assert Holds(d, p, g.secs[p], g.parts[p]); }
  }

  lemma WithIdTree(d: Dir, g: Shadow, h: nat, s: Bytes)
    requires Inv(d, g) && h < HASH_SIZE
    ensures |g.chains| == HASH_SIZE && |d.hash| == HASH_SIZE && TreeOk(WithId(d, h, s), ShadowWithId(g, h))
  {
    hide Dir.Layout, KindsOk, HashOk, TreeOk;
    HashLengths(d, g);
    LayoutHash(d);
    SecsClosed(d, g);
    WithIdGrows(d, h, s);
    TreeFrame(d, WithId(d, h, s), g, ShadowWithId(g, h));
  }

  /** No identifier with this text is stored yet. */
  ghost predicate NewText(d: Dir, g: Shadow, s: Bytes)
    requires d.Layout() && |g.kinds| == d.Free()
  {
    forall p :: 0 <= p < d.Free() && g.kinds[p] == Id ==> d.Span(p) != s
  }

  lemma WithIdChain(d: Dir, g: Shadow, s: Bytes, i: nat)
    requires d.Layout() && |g.kinds| == d.Free() && |g.chains| == HASH_SIZE && IsName(s) && i < HASH_SIZE
    requires ChainOk(d, g, i) && Chained(d.names, d.hash[i], g.chains[i])
    ensures var d', g' := WithId(d, Hash(s), s), ShadowWithId(g, Hash(s));
      && d'.Layout() && |g'.kinds| == d'.Free()
      && Chained(d'.names, d'.hash[i], g'.chains[i]) && ChainOk(d', g', i)
  {
    hide Dir.Layout, Hash, IsName;
    LayoutHash(d);
    var h := Hash(s);
    var d', g' := WithId(d, h, s), ShadowWithId(g, h);
    WithIdGrows(d, h, s);
    ChainedFrame(d.names, d'.names, d.hash[i], g.chains[i]);
    if i == h {
      assert g'.chains[h][1..] == g.chains[h];
    }
  }

  lemma WithIdHash(d: Dir, g: Shadow, s: Bytes)
    requires Inv(d, g) && IsName(s) && NewText(d, g, s)
    ensures |g.chains| == HASH_SIZE && |d.hash| == HASH_SIZE
    ensures WithId(d, Hash(s), s).Layout() && HashOk(WithId(d, Hash(s), s), ShadowWithId(g, Hash(s)))
  {
    hide Dir.Layout, KindsOk, TreeOk, Hash, IsName, Chained, ChainOk;
    LayoutHash(d);
    var h, n := Hash(s), d.Free();
    var d', g' := WithId(d, h, s), ShadowWithId(g, h);
    WithIdGrows(d, h, s);
    forall i | 0 <= i < HASH_SIZE ensures Chained(d'.names, d'.hash[i], g'.chains[i]) && ChainOk(d', g', i) {
      WithIdChain(d, g, s, i);
    }
    forall p | 0 <= p < d'.Free() && g'.kinds[p] == Id
      ensures IsName(d'.Span(p)) && p in g'.chains[Hash(d'.Span(p))]
    {
      if p == n { assert g'.chains[h][0] == n; }
      else {
        assert p in g.chains[Hash(d.Span(p))];
        if Hash(d.Span(p)) == h { assert p in g.chains[h] && p in [n] + g.chains[h]; }
      }
    }
  }

  lemma WithIdInv(d: Dir, g: Shadow, s: Bytes)
    requires Inv(d, g) && IsName(s) && NewText(d, g, s)
    ensures |g.chains| == HASH_SIZE && |d.hash| == HASH_SIZE
    ensures Inv(WithId(d, Hash(s), s), ShadowWithId(g, Hash(s)))
  {
    hide Dir.Layout, KindsOk, TreeOk, HashOk, NewText, IsName;
    WithIdHash(d, g, s);
    WithIdKinds(d, g, Hash(s), s);
    WithIdTree(d, g, Hash(s), s);
  }

  // ----- A new section name -----

  /** The two bytes of set_prefix_length. */
  function Header(m: nat): Bytes {
    [m / 256, m % 256]
  }

  /** Makes entry n the root, or a child of par on the side c. */
  function Hang(names: seq<Name>, par: int, c: Cmp, n: nat): (names': seq<Name>)
    requires 0 < |names| && par < |names|
    ensures |names'| == |names|
    ensures forall i :: 0 <= i < |names| ==>
      && names'[i].start == names[i].start
      && names'[i].link == (if i == par && c == Less then n else names[i].link)
      && names'[i].rlink == (if (par >= 0 && i == par && c != Less) || (par < 0 && i == 0) then n else names[i].rlink)
  {
    if par < 0 then names[0 := names[0].(rlink := n)]
    else if c == Less then names[par := names[par].(link := n)]
    else names[par := names[par].(rlink := n)]
  }

  function Tail(ispref: bool): Bytes {
    if ispref then [BLANK] else []
  }

  function WithSec(d: Dir, name: Bytes, ispref: bool, par: int, c: Cmp): Dir
    requires 2 <= |d.names| && par < |d.names|
  {
    var n := d.Free();
    var bytes := d.bytes + (Header(|name|) + name + Tail(ispref));
    var names := d.names[n := Name(d.names[n].start, NULL, NULL)]
               + (if ispref then [Name(|bytes|, 0, NULL)] else []) + [Name(|bytes|, NULL, NULL)];
    Dir(bytes, Hang(names, par, c, n), d.hash)
  }

  ghost function ShadowWithSec(g: Shadow, name: Bytes, ispref: bool): Shadow
    requires Nodes(g.tree) <= g.secs.Keys
  {
    var n := |g.kinds|;
    g.(kinds := g.kinds + [SecNode] + (if ispref then [Part(n)] else []),
       tree := Insert(Keys(g.secs), g.tree, name, n),
       secs := g.secs[n := Sec(name, name, !ispref)],
       parts := g.parts[n := []])
  }

  lemma WithSecGrows(d: Dir, name: Bytes, ispref: bool, par: int, c: Cmp)
    requires d.Layout() && par < d.Free()
    ensures var d', n := WithSec(d, name, ispref, par, c), d.Free();
      && Grows(d, d') && d'.Free() == n + (if ispref then 2 else 1)
      && d'.Span(n) == Header(|name|) + name + Tail(ispref)
      && (ispref ==> d'.Span(n + 1) == [] && d'.names[n + 1].link == 0)
      && d'.names[n].link == NULL && d'.names[n].rlink == NULL
      && (forall i :: 0 <= i < n ==>
            && d'.Span(i) == d.Span(i)
            && d'.names[i].link == (if i == par && c == Less then n else d.names[i].link)
            && d'.names[i].rlink == (if (par >= 0 && i == par && c != Less) || (par < 0 && i == 0) then n else d.names[i].rlink))
  {
    var d', n := WithSec(d, name, ispref, par, c), d.Free();
    assert d'.bytes[|d.bytes|..] == Header(|name|) + name + Tail(ispref);
    assert d'.names[n].start == |d.bytes|;
    forall i | n < i < |d'.names| ensures d'.names[i].start == |d'.bytes| { }
    forall i | 0 <= i <= n ensures d'.names[i].start == d.names[i].start { }
    assert Grows(d, d');
    forall i | 0 <= i < n ensures d'.Span(i) == d.Span(i) { GrowsSpan(d, d', i); }
  }

  /** The new entry holds the name it was made for. */
  lemma NewHolds(d: Dir, n: nat, name: Bytes, ispref: bool)
    requires d.Layout() && 0 < n < d.Free() && (if ispref then name != [] else !Open(name)) && |name| < 65536
    requires d.Span(n) == Header(|name|) + name + Tail(ispref)
    requires ispref ==> n + 1 < d.Free() && d.names[n + 1].link == 0
    ensures Holds(d, n, Sec(name, name, !ispref), [])
  {
    var chunk := d.Span(n)[2..];
    assert chunk == name + Tail(ispref);
    if ispref {
      assert Strip(chunk) == name;
      assert [n + 1] + [] == [n + 1] && Linked(d, [n + 1]);
      assert name + PartsText(d, []) == name;
    }
  }

  /** Every section name, the new one included, is stored as it should be. */
  lemma WithSecEach(d: Dir, g: Shadow, name: Bytes, ispref: bool, par: int, c: Cmp, p: nat)
    requires d.Layout() && KindsOk(d, g) && Nodes(g.tree) <= g.secs.Keys
    requires (if ispref then name != [] else !Open(name)) && |name| < 65536
    requires (par == NULL || par in g.secs) && par < d.Free() && (p in g.secs || p == d.Free())
    ensures var d', g' := WithSec(d, name, ispref, par, c), ShadowWithSec(g, name, ispref);
      && d'.Layout() && p in g'.secs && p in g'.parts && p < d'.Free() == |g'.kinds|
      && Holds(d', p, g'.secs[p], g'.parts[p]) && OwnsParts(d', g', p)
  {
    hide Dir.Layout, Holds, OwnsParts, Insert, WithSec, Header, Tail, Open, KindsOk;
    if p in g.secs {
      WithSecOld(d, g, name, ispref, par, c, p);
    } else {
      LayoutHash(d);
      KindsSize(d, g);
      WithSecGrows(d, name, ispref, par, c);
      NewHolds(WithSec(d, name, ispref, par, c), p, name, ispref);
      NewOwns(WithSec(d, name, ispref, par, c), ShadowWithSec(g, name, ispref), p, name, ispref);
    }
  }

  lemma KindsSize(d: Dir, g: Shadow)
    requires d.Layout() && KindsOk(d, g)
    ensures |g.kinds| == d.Free() && g.parts.Keys == g.secs.Keys
  {
  }

  lemma WithSecKinds(d: Dir, g: Shadow, name: Bytes, ispref: bool, par: int, c: Cmp)
    requires d.Layout() && KindsOk(d, g) && Nodes(g.tree) <= g.secs.Keys
    requires (if ispref then name != [] else !Open(name)) && |name| < 65536
    requires par == NULL || par in g.secs
    ensures par < d.Free()
    ensures WithSec(d, name, ispref, par, c).Layout()
    ensures KindsOk(WithSec(d, name, ispref, par, c), ShadowWithSec(g, name, ispref))
  {
    hide Dir.Layout, Holds, OwnsParts, Insert, WithSec, Header, Tail, Open, Nodes;
    LayoutHash(d);
    var d', g', n := WithSec(d, name, ispref, par, c), ShadowWithSec(g, name, ispref), d.Free();
    WithSecGrows(d, name, ispref, par, c);
    forall p | p in g'.secs ensures p < |g'.kinds| && Holds(d', p, g'.secs[p], g'.parts[p]) && OwnsParts(d', g', p) {
      WithSecEach(d, g, name, ispref, par, c, p);
    }
  }

  lemma WithSecOld(d: Dir, g: Shadow, name: Bytes, ispref: bool, par: int, c: Cmp, p: nat)
    requires d.Layout() && KindsOk(d, g) && Nodes(g.tree) <= g.secs.Keys && p in g.secs
    requires (par == NULL || par in g.secs) && par < d.Free()
    ensures var d', g' := WithSec(d, name, ispref, par, c), ShadowWithSec(g, name, ispref);
      && d'.Layout() && p in g'.secs && p in g'.parts && p < d'.Free() == |g'.kinds|
      && g'.secs[p] == g.secs[p] && g'.parts[p] == g.parts[p]
      && Holds(d', p, g'.secs[p], g'.parts[p]) && OwnsParts(d', g', p)
  {
    hide Dir.Layout, Holds, OwnsParts, Insert;
    LayoutHash(d);
    SecsClosed(d, g);
    WithSecGrows(d, name, ispref, par, c);
    SecsFrame(d, WithSec(d, name, ispref, par, c), g, ShadowWithSec(g, name, ispref), p);
  }

  lemma NewOwns(d: Dir, g: Shadow, n: nat, name: Bytes, ispref: bool)
    requires d.Layout() && n < d.Free() == |g.kinds| && n in g.parts && g.parts[n] == []
    requires d.Span(n) == Header(|name|) + name + Tail(ispref) && (if ispref then name != [] else !Open(name))
    requires ispref ==> n + 1 < d.Free() && g.kinds[n + 1] == Part(n)
    ensures OwnsParts(d, g, n)
  {
    assert d.Span(n)[2..] == name + Tail(ispref);
  }

  lemma {:induction false} SlotInside(keys: map<nat, Bytes>, t: Tree, name: Bytes, par: int, c: Cmp)
    requires Nodes(t) <= keys.Keys
    ensures t.Node? ==> Slot(keys, t, name, par, c).0 in Nodes(t)
    ensures t.Nil? ==> Slot(keys, t, name, par, c) == (par, c)
  {
    if t.Node? {
      SlotInside(keys, t.left, name, t.p, Less);
      SlotInside(keys, t.right, name, t.p, Greater);
    }
  }

  /** Hanging a leaf in its slot is insertion. */
  lemma {:induction false} ShapeInsert(keys: map<nat, Bytes>, names: seq<Name>, names': seq<Name>, ptr: int, ptr': int,
                                       t: Tree, name: Bytes, par: int, c: Cmp, n: nat)
    requires Nodes(t) <= keys.Keys && Shape(names, ptr, t) && Distinct(t)
    requires |names| <= |names'| && n < |names'| && names'[n].link == NULL && names'[n].rlink == NULL
    requires ptr' == if t.Nil? then n else ptr
    requires var slot := Slot(keys, t, name, par, c);
      forall x :: x in Nodes(t) && x < |names| ==>
        && names'[x].link == (if x == slot.0 && slot.1 == Less then n else names[x].link)
        && names'[x].rlink == (if x == slot.0 && slot.1 != Less then n else names[x].rlink)
    ensures Shape(names', ptr', Insert(keys, t, name, n))
    decreases t
  {
    hide Compare;
    match t
    case Nil =>
      assert Shape(names', NULL, Nil);
    case Node(p, l, r) =>
      SlotInside(keys, l, name, p, Less);
      SlotInside(keys, r, name, p, Greater);
      if Compare(name, keys[p]) == Less {
        ShapeInsert(keys, names, names', names[p].link, names'[p].link, l, name, p, Less, n);
        ShapeFrame(names, names', names[p].rlink, r);
      } else {
        ShapeInsert(keys, names, names', names[p].rlink, names'[p].rlink, r, name, p, Greater, n);
        ShapeFrame(names, names', names[p].link, l);
      }
  }

  lemma KeysOf(secs: map<nat, Sec>, n: nat, sec: Sec)
    ensures Keys(secs[n := sec]) == Keys(secs)[n := sec.key]
  {
  }

  /** A name that matches no key is hung in its slot. */
  lemma WithSecTree(d: Dir, g: Shadow, name: Bytes, ispref: bool)
    requires Inv(d, g) && Hits(Keys(g.secs), g.tree, name) == {}
    ensures var slot := Slot(Keys(g.secs), g.tree, name, NULL, Less);
      && slot.0 < d.Free() && (slot.0 == NULL || slot.0 in g.secs)
      && TreeOk(WithSec(d, name, ispref, slot.0, slot.1), ShadowWithSec(g, name, ispref))
  {
    hide Dir.Layout, KindsOk, HashOk, Ordered, Distinct, Insert, Slot, Hits;
    LayoutHash(d);
    SecsClosed(d, g);
    var keys, n := Keys(g.secs), d.Free();
    SlotInside(keys, g.tree, name, NULL, Less);
    var (par, c) := Slot(keys, g.tree, name, NULL, Less);
    var d', g' := WithSec(d, name, ispref, par, c), ShadowWithSec(g, name, ispref);
    WithSecGrows(d, name, ispref, par, c);
    ShapeInsert(keys, d.names, d'.names, d.names[0].rlink, d'.names[0].rlink, g.tree, name, NULL, Less, n);
    InsertOrdered(keys, g.tree, name, n);
    KeysOf(g.secs, n, Sec(name, name, !ispref));
  }

  /** Identifiers are untouched when other entries' links and later entries change. */
  lemma HashFrame(d: Dir, d': Dir, g: Shadow, g': Shadow)
    requires d.Layout() && d'.Layout() && HashOk(d, g) && d'.hash == d.hash
    requires d.Free() <= d'.Free() == |g'.kinds| && g'.chains == g.chains
    requires forall p :: 0 <= p < d'.Free() ==> (g'.kinds[p] == Id <==> p < d.Free() && g.kinds[p] == Id)
    requires forall p :: 0 <= p < d.Free() && g.kinds[p] == Id ==>
      d'.Span(p) == d.Span(p) && d'.names[p].link == d.names[p].link
    ensures HashOk(d', g')
  {
    hide Dir.Layout, Hash, IsName;
    LayoutHash(d);
    forall h | 0 <= h < HASH_SIZE ensures Chained(d'.names, d'.hash[h], g'.chains[h]) && ChainOk(d', g', h) {
      assert ChainOk(d, g, h);
      ChainedFrame(d.names, d'.names, d.hash[h], g.chains[h]);
    }
  }

  lemma WithSecInv(d: Dir, g: Shadow, name: Bytes, ispref: bool)
    requires Inv(d, g) && Hits(Keys(g.secs), g.tree, name) == {}
    requires (if ispref then name != [] else !Open(name)) && |name| < 65536
    ensures var slot := Slot(Keys(g.secs), g.tree, name, NULL, Less);
      && slot.0 < d.Free()
      && Inv(WithSec(d, name, ispref, slot.0, slot.1), ShadowWithSec(g, name, ispref))
  {
    hide Dir.Layout, KindsOk, TreeOk, HashOk, Hits, Slot, Insert, Open;
    TreeNodes(d, g);
    var (par, c) := Slot(Keys(g.secs), g.tree, name, NULL, Less);
    WithSecTree(d, g, name, ispref);
    WithSecKinds(d, g, name, ispref, par, c);
    WithSecHash(d, g, name, ispref, par, c);
  }

  lemma WithSecHash(d: Dir, g: Shadow, name: Bytes, ispref: bool, par: int, c: Cmp)
    requires d.Layout() && KindsOk(d, g) && HashOk(d, g) && Nodes(g.tree) <= g.secs.Keys
    requires (par == NULL || par in g.secs) && par < d.Free()
    ensures WithSec(d, name, ispref, par, c).Layout()
    ensures HashOk(WithSec(d, name, ispref, par, c), ShadowWithSec(g, name, ispref))
  {
    hide Dir.Layout, KindsOk, HashOk, Insert;
    LayoutHash(d);
    SecsClosed(d, g);
    if par in g.secs { SecKind(d, g, par); }
    WithSecGrows(d, name, ispref, par, c);
    HashFrame(d, WithSec(d, name, ispref, par, c), g, ShadowWithSec(g, name, ispref));
  }

  lemma SecKind(d: Dir, g: Shadow, p: nat)
    requires d.Layout() && KindsOk(d, g) && p in g.secs
    ensures p < |g.kinds| && g.kinds[p] == SecNode
  {
  }

  lemma TreeNodes(d: Dir, g: Shadow)
    requires TreeOk(d, g)
    ensures Nodes(g.tree) == g.secs.Keys
  {
  }

  // ----- One more chunk -----

  function WithChunk(d: Dir, q: nat, rest: Bytes, ispref: bool): Dir
    requires 2 <= |d.names| && q < d.Free()
  {
    var n := d.Free();
    var bytes := d.bytes + (rest + Tail(ispref));
    var names := d.names[q := d.names[q].(link := n)];
    Dir(bytes, names[n := names[n].(link := 0)] + [Name(|bytes|, NULL, NULL)], d.hash)
  }

  ghost function ShadowWithChunk(g: Shadow, p: nat, rest: Bytes, ispref: bool): Shadow
    requires p in g.secs && p in g.parts
  {
    var sec := g.secs[p];
    g.(kinds := g.kinds + [Part(p)], parts := g.parts[p := g.parts[p] + [|g.kinds|]],
       secs := g.secs[p := sec.(text := sec.text + rest, complete := !ispref)])
  }

  /** The end of the chunk chain of p, where the next chunk is linked. */
  ghost function ChainEnd(p: nat, part: seq<nat>): nat {
    if part == [] then p + 1 else part[|part| - 1]
  }

  lemma WithChunkGrows(d: Dir, q: nat, rest: Bytes, ispref: bool)
    requires d.Layout() && q < d.Free()
    ensures var d', n := WithChunk(d, q, rest, ispref), d.Free();
      && Grows(d, d') && d'.Free() == n + 1 && d'.Span(n) == rest + Tail(ispref) && d'.names[n].link == 0
      && (forall i :: 0 <= i < n ==>
            && d'.Span(i) == d.Span(i) && d'.names[i].rlink == d.names[i].rlink
            && d'.names[i].link == (if i == q then n else d.names[i].link))
  {
    var d', n := WithChunk(d, q, rest, ispref), d.Free();
    assert d'.bytes[|d.bytes|..] == rest + Tail(ispref);
    assert Grows(d, d');
    forall i | 0 <= i < n ensures d'.Span(i) == d.Span(i) { GrowsSpan(d, d', i); }
  }

  lemma {:induction false} PartsTextSnoc(d: Dir, part: seq<nat>, n: nat)
    requires d.Layout() && Within(d, part) && n < d.Free()
    ensures Within(d, part + [n]) && PartsText(d, part + [n]) == PartsText(d, part) + Strip(d.Span(n))
  {
    hide Dir.Layout, Strip;
    if part == [] {
      assert [] + [n] == [n] && [n][1..] == [];
    } else {
      PartsTextSnoc(d, part[1..], n);
      assert (part + [n])[1..] == part[1..] + [n];
    }
  }

  lemma LinkedSnoc(d: Dir, d': Dir, chain: seq<nat>, n: nat)
    requires Linked(d, chain) && chain != [] && n == d.Free() && d'.Free() == n + 1 && 0 <= n
    requires d'.names[n].link == 0
    requires forall i :: 0 <= i < n ==> d'.names[i].link == (if i == chain[|chain| - 1] then n else d.names[i].link)
    ensures Linked(d', chain + [n])
  {
    var chain' := chain + [n];
    forall i | 0 <= i < |chain'|
      ensures d'.names[chain'[i]].link == if i + 1 < |chain'| then chain'[i + 1] else 0
    {
      if i < |chain| { assert chain'[i] == chain[i]; }
      if i < |chain| - 1 { assert chain[i] < chain[|chain| - 1]; }
    }
  }

  /** Appending a chunk extends the text of an unfinished name by exactly that much. */
  lemma HoldsMore(d: Dir, p: nat, sec: Sec, part: seq<nat>, rest: Bytes, ispref: bool)
    requires d.Layout() && Holds(d, p, sec, part) && !sec.complete
    requires if ispref then rest != [] else !Open(rest)
    ensures p + 1 < d.Free() && ChainEnd(p, part) < d.Free()
    ensures var d' := WithChunk(d, ChainEnd(p, part), rest, ispref);
      && d'.Layout()
      && Holds(d', p, sec.(text := sec.text + rest, complete := !ispref), part + [d.Free()])
  {
    hide Dir.Layout, TailOk, Strip, Open;
    LayoutHash(d);
    var chunk := d.Span(p)[2..];
    TailEnd(d, p, chunk, sec, part);
    var q := ChainEnd(p, part);
    WithChunkGrows(d, q, rest, ispref);
    TailMore(d, WithChunk(d, q, rest, ispref), p, chunk, sec, part, rest, ispref);
  }

  lemma TailEnd(d: Dir, p: nat, chunk: Bytes, sec: Sec, part: seq<nat>)
    requires d.Layout() && TailOk(d, p, chunk, sec, part)
    ensures p + 1 < d.Free() && ChainEnd(p, part) < d.Free()
  {
    EndInside(d, p, part);
  }

  lemma TailMore(d: Dir, d': Dir, p: nat, chunk: Bytes, sec: Sec, part: seq<nat>, rest: Bytes, ispref: bool)
    requires d.Layout() && d'.Layout() && TailOk(d, p, chunk, sec, part) && !sec.complete
    requires if ispref then rest != [] else !Open(rest)
    requires d'.Free() == d.Free() + 1 && d'.Span(d.Free()) == rest + Tail(ispref) && d'.names[d.Free()].link == 0
    requires forall i :: 0 <= i < d.Free() ==>
      d'.Span(i) == d.Span(i) && d'.names[i].link == (if i == ChainEnd(p, part) then d.Free() else d.names[i].link)
    ensures TailOk(d', p, chunk, sec.(text := sec.text + rest, complete := !ispref), part + [d.Free()])
  {
    hide Dir.Layout, Linked, ChunksOk, PartsText;
    var n := d.Free();
    LinkedMore(d, d', p, part);
    assert Strip(d'.Span(n)) == rest && (Open(d'.Span(n)) <==> ispref);
    PartsTextSame(d, d', part);
    PartsTextSnoc(d', part, n);
    ChunksMore(d, d', part, n);
    assert sec.text + rest == Strip(chunk) + (PartsText(d', part) + rest);
    assert (part + [n])[|part + [n]| - 1] == n;
  }

  lemma EndInside(d: Dir, p: nat, part: seq<nat>)
    requires Linked(d, [p + 1] + part)
    ensures 0 < ChainEnd(p, part) < d.Free()
  {
    var chain := [p + 1] + part;
    assert chain[|chain| - 1] == ChainEnd(p, part);
  }

  lemma LinkedMore(d: Dir, d': Dir, p: nat, part: seq<nat>)
    requires Linked(d, [p + 1] + part) && 0 <= d.Free() && d'.Free() == d.Free() + 1 && d'.names[d.Free()].link == 0
    requires forall i :: 0 <= i < d.Free() ==>
      d'.names[i].link == (if i == ChainEnd(p, part) then d.Free() else d.names[i].link)
    ensures Linked(d', [p + 1] + (part + [d.Free()]))
  {
    hide Linked;
    var chain := [p + 1] + part;
    assert chain[|chain| - 1] == ChainEnd(p, part);
    LinkedSnoc(d, d', chain, d.Free());
    assert chain + [d.Free()] == [p + 1] + (part + [d.Free()]);
  }

  lemma {:induction false} PartsTextSame(d: Dir, d': Dir, part: seq<nat>)
    requires d.Layout() && d'.Layout() && Within(d, part) && d.Free() <= d'.Free()
    requires forall i :: 0 <= i < d.Free() ==> d'.Span(i) == d.Span(i)
    ensures Within(d', part) && PartsText(d', part) == PartsText(d, part)
  {
    if part != [] { PartsTextSame(d, d', part[1..]); }
  }

  lemma ChunksMore(d: Dir, d': Dir, part: seq<nat>, n: nat)
    requires d.Layout() && d'.Layout() && Within(d, part) && n == d.Free() < d'.Free() && ChunksOk(d, part)
    requires part != [] ==> Open(d.Span(part[|part| - 1]))
    requires forall i :: 0 <= i < n ==> d'.Span(i) == d.Span(i)
    requires Open(d'.Span(n)) ==> 2 <= |d'.Span(n)|
    ensures Within(d', part + [n]) && ChunksOk(d', part + [n])
  {
    hide Dir.Layout, Open;
    var part' := part + [n];
    assert forall i :: 0 <= i < |part| ==> part'[i] == part[i];
    assert part'[|part|] == n;
  }

  lemma WithChunkEach(d: Dir, g: Shadow, p: nat, rest: Bytes, ispref: bool, x: nat)
    requires d.Layout() && KindsOk(d, g) && p in g.secs && !g.secs[p].complete && x in g.secs
    requires if ispref then rest != [] else !Open(rest)
    ensures p in g.parts && ChainEnd(p, g.parts[p]) < d.Free()
    ensures var d', g' := WithChunk(d, ChainEnd(p, g.parts[p]), rest, ispref), ShadowWithChunk(g, p, rest, ispref);
      && d'.Layout() && x in g'.secs && x in g'.parts && x < d'.Free() == |g'.kinds|
      && Holds(d', x, g'.secs[x], g'.parts[x]) && OwnsParts(d', g', x)
  {
    hide Dir.Layout, Holds, OwnsParts, WithChunk, Tail, Open, ChainEnd, Grows;
    LayoutHash(d);
    SecsClosed(d, g);
    HoldsMore(d, p, g.secs[p], g.parts[p], rest, ispref);
    ChainEndKind(d, g, p);
    var d', g' := WithChunk(d, ChainEnd(p, g.parts[p]), rest, ispref), ShadowWithChunk(g, p, rest, ispref);
    WithChunkGrows(d, ChainEnd(p, g.parts[p]), rest, ispref);
    if x == p { OwnsMore(d, d', g, g', p); } else { SecsFrame(d, d', g, g', x); }
  }

  lemma WithChunkKinds(d: Dir, g: Shadow, p: nat, rest: Bytes, ispref: bool)
    requires d.Layout() && KindsOk(d, g) && p in g.secs && !g.secs[p].complete
    requires if ispref then rest != [] else !Open(rest)
    ensures var q := ChainEnd(p, g.parts[p]);
      && q < d.Free() && g.kinds[q] == Part(p)
      && WithChunk(d, q, rest, ispref).Layout()
      && KindsOk(WithChunk(d, q, rest, ispref), ShadowWithChunk(g, p, rest, ispref))
  {
    hide Dir.Layout, Holds, OwnsParts, WithChunk, Tail, Open, ChainEnd, Grows;
    LayoutHash(d);
    ChainEndKind(d, g, p);
    var q := ChainEnd(p, g.parts[p]);
    var d', g' := WithChunk(d, q, rest, ispref), ShadowWithChunk(g, p, rest, ispref);
    WithChunkGrows(d, q, rest, ispref);
    forall x | x in g'.secs ensures x < |g'.kinds| && Holds(d', x, g'.secs[x], g'.parts[x]) && OwnsParts(d', g', x) {
      WithChunkEach(d, g, p, rest, ispref, x);
    }
  }

  lemma ChainEndKind(d: Dir, g: Shadow, p: nat)
    requires d.Layout() && KindsOk(d, g) && p in g.secs && !g.secs[p].complete
    ensures ChainEnd(p, g.parts[p]) < d.Free() && g.kinds[ChainEnd(p, g.parts[p])] == Part(p)
  {
    assert Holds(d, p, g.secs[p], g.parts[p]) && OwnsParts(d, g, p);
  }

  lemma OwnsMore(d: Dir, d': Dir, g: Shadow, g': Shadow, p: nat)
    requires d.Layout() && d'.Layout() && |g.kinds| == d.Free() && p in g.parts && p < d.Free() && OwnsParts(d, g, p)
    requires d'.Free() == d.Free() + 1 == |g'.kinds| && g'.kinds == g.kinds + [Part(p)]
    requires p in g'.parts && g'.parts[p] == g.parts[p] + [d.Free()] && d'.Span(p) == d.Span(p)
    ensures OwnsParts(d', g', p)
  {
  }

  lemma WithChunkInv(d: Dir, g: Shadow, p: nat, rest: Bytes, ispref: bool)
    requires Inv(d, g) && p in g.secs && !g.secs[p].complete
    requires if ispref then rest != [] else !Open(rest)
    ensures p in g.parts
    ensures var q := ChainEnd(p, g.parts[p]);
      && q < d.Free() && Inv(WithChunk(d, q, rest, ispref), ShadowWithChunk(g, p, rest, ispref))
  {
    hide Dir.Layout, TreeOk, HashOk, Holds, OwnsParts, Open;
    LayoutHash(d);
    SecsClosed(d, g);
    WithChunkKinds(d, g, p, rest, ispref);
    WithChunkRest(d, g, p, rest, ispref);
  }

  lemma WithChunkRest(d: Dir, g: Shadow, p: nat, rest: Bytes, ispref: bool)
    requires Inv(d, g) && p in g.secs && p in g.parts && !g.secs[p].complete
    ensures var q := ChainEnd(p, g.parts[p]);
      && q < d.Free() && WithChunk(d, q, rest, ispref).Layout()
      && TreeOk(WithChunk(d, q, rest, ispref), ShadowWithChunk(g, p, rest, ispref))
      && HashOk(WithChunk(d, q, rest, ispref), ShadowWithChunk(g, p, rest, ispref))
  {
    hide Dir.Layout, TreeOk, HashOk, KindsOk;
    LayoutHash(d);
    SecsClosed(d, g);
    ChainEndKind(d, g, p);
    var q := ChainEnd(p, g.parts[p]);
    var d', g' := WithChunk(d, q, rest, ispref), ShadowWithChunk(g, p, rest, ispref);
    WithChunkGrows(d, q, rest, ispref);
    forall x | x in g.secs ensures g.kinds[x] == SecNode { SecKind(d, g, x); }
    HashFrame(d, d', g, g');
    TreeFrame(d, d', g, g.(secs := g.secs));
    SameKeys(d', g, g');
  }

  lemma SameKeys(d: Dir, g: Shadow, g': Shadow)
    requires TreeOk(d, g) && g'.tree == g.tree && Keys(g'.secs) == Keys(g.secs)
    ensures TreeOk(d, g')
  {
    assert g'.secs.Keys == Keys(g'.secs).Keys == Keys(g.secs).Keys == g.secs.Keys;
  }

  // ----- A shorter key -----

  function WithKey(d: Dir, p: nat, m: nat): Dir
    requires p < |d.names| && d.names[p].start + 1 < |d.bytes|
  {
    var i := d.names[p].start;
    d.(bytes := d.bytes[i := m / 256][i + 1 := m % 256])
  }

  ghost function ShadowWithKey(g: Shadow, p: nat, key: Bytes): Shadow
    requires p in g.secs
  {
    g.(secs := g.secs[p := g.secs[p].(key := key)])
  }

  /** Only the two length bytes of entry p change. */
  lemma WithKeySpans(d: Dir, p: nat, m: nat)
    requires d.Layout() && p < d.Free() && 2 <= |d.Span(p)|
    ensures d.names[p].start + 1 < |d.bytes|
    ensures var d' := WithKey(d, p, m);
      && d'.Layout() && d'.Span(p) == Header(m) + d.Span(p)[2..]
      && (forall i :: 0 <= i < d.Free() && i != p ==> d'.Span(i) == d.Span(i))
  {
    var a, b := d.names[p].start, d.names[p + 1].start;
    assert b <= |d.bytes|;
    var d' := WithKey(d, p, m);
    assert d'.Layout();
    assert d'.Span(p) == Header(m) + d.Span(p)[2..];
    forall i | 0 <= i < d.Free() && i != p ensures d'.Span(i) == d.Span(i) {
      if i < p { assert d.names[i + 1].start <= a; } else { assert b <= d.names[i].start; }
    }
  }

  lemma HoldsKey(d: Dir, p: nat, sec: Sec, part: seq<nat>, key: Bytes)
    requires d.Layout() && Holds(d, p, sec, part) && key != [] && key <= sec.key
    ensures p < d.Free() && d.names[p].start + 1 < |d.bytes|
    ensures WithKey(d, p, |key|).Layout() && Holds(WithKey(d, p, |key|), p, sec.(key := key), part)
  {
    hide Dir.Layout, Strip, Open, TailOk, WithKey;
    WithKeySpans(d, p, |key|);
    SameNames(d, p, |key|);
    var d' := WithKey(d, p, |key|);
    var chunk := d.Span(p)[2..];
    assert d'.Span(p)[2..] == chunk && d'.Span(p)[0] == |key| / 256 && d'.Span(p)[1] == |key| % 256;
    if Open(chunk) {
      TailKey(d, d', p, chunk, sec, part, key);
    }
  }

  lemma SameNames(d: Dir, p: nat, m: nat)
    requires p < |d.names| && d.names[p].start + 1 < |d.bytes|
    ensures WithKey(d, p, m).names == d.names && WithKey(d, p, m).hash == d.hash
  {
  }

  lemma TailKey(d: Dir, d': Dir, p: nat, chunk: Bytes, sec: Sec, part: seq<nat>, key: Bytes)
    requires d.Layout() && d'.Layout() && TailOk(d, p, chunk, sec, part) && d'.names == d.names
    requires forall i :: 0 <= i < d.Free() && i != p ==> d'.Span(i) == d.Span(i)
    ensures TailOk(d', p, chunk, sec.(key := key), part)
  {
    hide Dir.Layout;
    var chain := [p + 1] + part;
    forall i | 0 <= i < |chain| ensures chain[i] < d.Free() && chain[i] != p {
      if i > 0 { assert chain[0] < chain[i]; }
    }
    TailFrame(d, d', p, chunk, sec, part);
  }

  lemma WithKeyKinds(d: Dir, g: Shadow, p: nat, key: Bytes)
    requires d.Layout() && KindsOk(d, g) && p in g.secs && key != [] && key <= g.secs[p].key
    ensures p < d.Free() && d.names[p].start + 1 < |d.bytes|
    ensures WithKey(d, p, |key|).Layout() && KindsOk(WithKey(d, p, |key|), ShadowWithKey(g, p, key))
  {
    hide Dir.Layout, Holds, OwnsParts, WithKey;
    SecsClosed(d, g);
    HoldsBounds(d, p, g.secs[p], g.parts[p]);
    HoldsKey(d, p, g.secs[p], g.parts[p], key);
    WithKeySpans(d, p, |key|);
    SameNames(d, p, |key|);
    var d', g' := WithKey(d, p, |key|), ShadowWithKey(g, p, key);
    SameOwner(d, d', g, g', p);
    forall x | x in g.secs && x != p ensures Holds(d', x, g'.secs[x], g'.parts[x]) && OwnsParts(d', g', x) {
      SecsFrame(d, d', g, g', x);
    }
  }

  lemma SameOwner(d: Dir, d': Dir, g: Shadow, g': Shadow, p: nat)
    requires d.Layout() && d'.Layout() && d'.Free() == d.Free() == |g.kinds| && p in g.parts && p < d.Free() && OwnsParts(d, g, p)
    requires g'.kinds == g.kinds && g'.parts == g.parts
    requires 2 <= |d.Span(p)| && |d'.Span(p)| == |d.Span(p)| && d'.Span(p)[2..] == d.Span(p)[2..]
    ensures OwnsParts(d', g', p)
  {
  }

  /** Shortening the key of the only match. */
  lemma WithKeyInv(d: Dir, g: Shadow, p: nat, key: Bytes)
    requires Inv(d, g) && p in g.secs && key != [] && key <= g.secs[p].key
    requires Hits(Keys(g.secs), g.tree, key) <= {p}
    ensures p < d.Free() && d.names[p].start + 1 < |d.bytes|
    ensures Inv(WithKey(d, p, |key|), ShadowWithKey(g, p, key))
  {
    hide Dir.Layout, KindsOk, HashOk, WithKey, Hits, Ordered;
    WithKeyKinds(d, g, p, key);
    SecsClosed(d, g);
    SecKind(d, g, p);
    KindsHold(d, g, p);
    WithKeySpans(d, p, |key|);
    SameNames(d, p, |key|);
    var d', g' := WithKey(d, p, |key|), ShadowWithKey(g, p, key);
    HashFrame(d, d', g, g');
    ShortenOrdered(Keys(g.secs), g.tree, key, p);
    KeysOf(g.secs, p, g.secs[p].(key := key));
  }

  lemma KindsHold(d: Dir, g: Shadow, p: nat)
    requires d.Layout() && KindsOk(d, g) && p in g.secs
    ensures p in g.parts && Holds(d, p, g.secs[p], g.parts[p]) && 0 < p < d.Free() && 2 <= |d.Span(p)|
  {
    HoldsBounds(d, p, g.secs[p], g.parts[p]);
  }
}
