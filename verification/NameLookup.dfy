/**
 The lookup routines on the shared name directory (cweb/common.c:687-736, 762-991).
 */
module NameLookup {
  import opened NameOrder
  import opened NameDirectory

  /** What `section_lookup` may complain about. */
  datatype Diagnostic = Fine | Ambiguous | IsPrefix | Extends | Incompatible

  /** Outcomes of `section_name_cmp`. */
  datatype NameCmp = NLess | NEqual | NGreater | NPrefix | NExtension | NBadExtension

  /** A name against what is known of a section: unfinished names can be extended. */
  ghost function CompareKnown(name: Bytes, sec: Sec): NameCmp {
    match Compare(name, sec.text)
    case Less => NLess
    case Greater => NGreater
    case Prefix => NPrefix
    case Equal => if sec.complete then NEqual else NExtension
    case Extension => if sec.complete then NBadExtension else NExtension
  }

  /** What a lookup of `name` makes of the only section it can mean. */
  ghost function Resolve(sec: Sec, name: Bytes, ispref: bool): (Sec, Diagnostic) {
    match CompareKnown(name, sec)
    case NPrefix =>
      if !ispref then (sec, IsPrefix)
      else (sec.(key := if |name| < |sec.key| then name else sec.key), Fine)
    case NEqual => (sec, Fine)
    case NExtension =>
      if !ispref || |sec.text| < |name| then (sec.(text := name, complete := !ispref), Fine) else (sec, Fine)
    case NBadExtension => (sec, Extends)
    case _ => (sec, Incompatible)
  }

  /** The shorter and the longer of two names. */
  function Shorter(a: Bytes, b: Bytes): Bytes {
    if |a| < |b| then a else b
  }

  function Longer(a: Bytes, b: Bytes): Bytes {
    if |a| < |b| then b else a
  }

  ghost predicate ProperPrefix(a: Bytes, b: Bytes) {
    a <= b && a != b
  }

  /**
   When each diagnostic is given. An abbreviation of what is known is fine, and so are just what
   is known and, until the name is finished, anything longer. Then the longer of the two is
   known, finished if either was a full name, and the shorter of key and name is the key.
   Otherwise nothing changes.
   */
  lemma ResolveExact(sec: Sec, name: Bytes, ispref: bool)
    requires sec.key <= sec.text && Comparable(name, sec.key)
    ensures var (sec', diag) := Resolve(sec, name, ispref);
      && (diag == Fine <==>
            || name == sec.text
            || (ispref && ProperPrefix(name, sec.text))
            || (!sec.complete && ProperPrefix(sec.text, name)))
      && (diag == IsPrefix <==> !ispref && ProperPrefix(name, sec.text))
      && (diag == Extends <==> sec.complete && ProperPrefix(sec.text, name))
      && (diag == Incompatible <==> !Comparable(name, sec.text))
      && (diag != Fine ==> sec' == sec)
      && (diag == Fine ==> sec' == Sec(Shorter(sec.key, name), Longer(sec.text, name), sec.complete || !ispref))
  {
    CompareMeaning(name, sec.text);
  }

  /** So known text only grows at its end, the key stays a prefix of it, and a finished name never changes. */
  lemma ResolveKeeps(sec: Sec, name: Bytes, ispref: bool)
    requires sec.key <= sec.text && Comparable(name, sec.key)
    ensures Grown(sec, Resolve(sec, name, ispref).0)
    ensures Resolve(sec, name, ispref).1 == Fine ==> Means(Resolve(sec, name, ispref).0, name, ispref)
  {
    hide Resolve;
    ResolveExact(sec, name, ispref);
  }

  /** The name lies between the key and the known text; a full name is the known text. */
  ghost predicate Means(sec: Sec, name: Bytes, ispref: bool) {
    sec.key <= name <= sec.text && (!ispref ==> sec.complete && sec.text == name)
  }

  /** What is known of a section name grows at its end only, and not once the name is finished; its key only gets shorter. */
  ghost predicate Grown(sec: Sec, sec': Sec) {
    sec.text <= sec'.text && sec'.key <= sec.key && (sec.complete ==> sec'.complete && sec'.text == sec.text)
  }

  /** All section names stay, and are at most better known. */
  ghost predicate SecsKept(secs: map<nat, Sec>, secs': map<nat, Sec>) {
    forall p :: p in secs ==> p in secs' && Grown(secs[p], secs'[p])
  }

  lemma GrownTransitive(a: Sec, b: Sec, c: Sec)
    requires Grown(a, b) && Grown(b, c)
    ensures Grown(a, c)
  {
  }

  lemma SecsKeptTransitive(a: map<nat, Sec>, b: map<nat, Sec>, c: map<nat, Sec>)
    requires SecsKept(a, b) && SecsKept(b, c)
    ensures SecsKept(a, c)
  {
    hide Grown;
    forall p | p in a ensures p in c && Grown(a[p], c[p]) {
      GrownTransitive(a[p], b[p], c[p]);
    }
  }

  lemma SecsSame(secs: map<nat, Sec>)
    ensures SecsKept(secs, secs)
  {
  }

  lemma SecsUpdated(secs: map<nat, Sec>, p: nat, sec: Sec)
    requires p in secs ==> Grown(secs[p], sec)
    ensures SecsKept(secs, secs[p := sec])
  {
  }

  /** A lookup of the only section the name can mean. */
  lemma ResolveGrows(secs: map<nat, Sec>, p: nat, name: Bytes, ispref: bool)
    requires p in secs && secs[p].key <= secs[p].text && Comparable(name, secs[p].key)
    ensures SecsKept(secs, secs[p := Resolve(secs[p], name, ispref).0])
  {
    ResolveKeeps(secs[p], name, ispref);
    SecsUpdated(secs, p, Resolve(secs[p], name, ispref).0);
  }

  /** Entries keep their uses, and identifiers keep their text and their place. */
  ghost predicate IdsKept(d: Dir, g: Shadow, d': Dir, g': Shadow) {
    && d.Layout() && d'.Layout() && |g.kinds| == d.Free() <= d'.Free() && g.kinds <= g'.kinds
    && forall q :: 0 <= q < d.Free() && g.kinds[q] == Id ==> d'.Span(q) == d.Span(q)
  }

  /** A call of either lookup routine, with the arguments that the scanner gives it. */
  datatype Lookup = OfId(s: Bytes) | OfSection(name: Bytes, ispref: bool)

  ghost predicate Admissible(l: Lookup) {
    match l
    case OfId(s) => IsName(s)
    case OfSection(name, ispref) => (if ispref then name != [] else !Open(name)) && |name| < 65536
  }

  class Directory {
    var bytes: Bytes
    var names: seq<Name>
    var hash: seq<int>
    ghost var g: Shadow

    ghost function D(): Dir
      reads this
    {
      Dir(bytes, names, hash)
    }

    ghost predicate Valid()
      reads this
    {
      Inv(D(), g)
    }

    constructor ()
      ensures Valid() && g.secs == map[] && g.kinds == [Top]
    {
      bytes := [];
      names := [Name(0, NULL, NULL), Name(0, NULL, NULL)];
      hash := seq(HASH_SIZE, _ => NULL);
      g := Shadow([Top], Nil, map[], map[], seq(HASH_SIZE, _ => []));
    }

    /** `web_strcmp`. */
    static method WebStrcmp(j: Bytes, k: Bytes) returns (c: Cmp)
      ensures c == Compare(j, k)
    {
      var i := 0;
      while i < |k| && i < |j| && j[i] == k[i]
        invariant 0 <= i <= |j| && i <= |k| && j[..i] == k[..i]
      {
        i := i + 1;
      }
      CommonUnique(j, k, i);
      if i == |k| {
        c := if i == |j| then Equal else Extension;
      } else if i == |j| {
        c := Prefix;
      } else {
        c := if j[i] < k[i] then Less else Greater;
      }
    }

    static method ComputeHash(s: Bytes) returns (h: nat)
      requires IsName(s)
      ensures h == Hash(s)
    {
      var i, x := 1, s[0];
      HashBound(s, 1, s[0]);
      while i < |s|
        invariant 1 <= i <= |s| && 0 <= x < HASH_SIZE
        invariant HashFrom(s, i, x) == Hash(s)
      {
        x := (x + x + s[i]) % HASH_SIZE;
        i := i + 1;
      }
      h := x;
    }

    /** CTANGLE's `names_match`. */
    method NamesMatch(p: nat, s: Bytes) returns (b: bool)
      requires D().Layout() && p < D().Free()
      ensures b <==> D().Span(p) == s
    {
      assert names[p].start <= names[p + 1].start <= names[|names| - 1].start;
      b := names[p + 1].start - names[p].start == |s| && bytes[names[p].start..names[p].start + |s|] == s;
    }

    /** The walk along hash chain h. */
    method FindId(s: Bytes, h: nat) returns (p: int)
      requires Valid() && IsName(s) && h == Hash(s)
      ensures p == NULL ==> NewText(D(), g, s)
      ensures p != NULL ==> 0 < p < D().Free() && g.kinds[p] == Id && D().Span(p) == s
    {
      hide KindsOk, TreeOk, Hash;
      LayoutHash(D());
      p := hash[h];
      ghost var chain := g.chains[h];
      ghost var k := 0;
      assert ChainOk(D(), g, h) && chain[0..] == chain;
      while p != NULL
        invariant 0 <= k <= |chain| && Chained(names, p, chain[k..])
        invariant forall i :: 0 <= i < k ==> D().Span(chain[i]) != s
        decreases |chain| - k
      {
        assert chain[k..][0] == chain[k] == p && chain[k..][1..] == chain[k + 1..];
        var found := NamesMatch(p, s);
        if found { return; }
        p := names[p].link;
        k := k + 1;
      }
      assert chain[k..] == [];
    }

    /** `id_lookup`: the entry with this text, made if there is none. */
    method IdLookup(s: Bytes) returns (p: int)
      requires Valid() && IsName(s)
      modifies this
      ensures Valid()
      ensures 0 < p < D().Free() && g.kinds[p] == Id && D().Span(p) == s
      ensures IdsKept(old(D()), old(g), D(), g) && g.secs == old(g).secs
      ensures !old(NewText(D(), g, s)) ==> D() == old(D()) && g == old(g)
      ensures old(NewText(D(), g, s)) ==>
        p == old(D().Free()) && D() == WithId(old(D()), Hash(s), s) && g == ShadowWithId(old(g), Hash(s))
    {
      hide KindsOk, TreeOk, HashOk, Hash;
      HashLengths(D(), g);
      LayoutHash(D());
      var h := ComputeHash(s);
      p := FindId(s, h);
      if p == NULL {
        WithIdInv(D(), g, s);
        WithIdGrows(D(), h, s);
        p := |names| - 1;
        names := names[p := names[p].(link := hash[h])];
        hash := hash[h := p];
        bytes := bytes + s;
        names := names + [Name(|bytes|, NULL, NULL)];
        g := ShadowWithId(g, h);
      }
    }

    /** The first `prefix_length(p)` bytes of the first chunk. */
    method ReadKey(p: nat) returns (key: Bytes)
      requires Valid() && p in g.secs
      ensures key == g.secs[p].key
    {
      hide KindsOk, TreeOk, HashOk, Dir.Layout, Holds;
      KindsHold(D(), g, p);
      KeyBytes(D(), p, g.secs[p], g.parts[p]);
      var i := names[p].start;
      var m := bytes[i] * 256 + bytes[i + 1];
      key := bytes[i + 2..i + 2 + m];
    }

    /** The part of `section_lookup` that searches the tree (cweb/common.c:891-915). */
    method Search(name: Bytes) returns (r: int, par: int, c: Cmp, ambiguous: bool)
      requires Valid()
      ensures Nodes(g.tree) <= Keys(g.secs).Keys
      ensures var hits := Hits(Keys(g.secs), g.tree, name);
        && (ambiguous ==> exists x, y :: x in hits && y in hits && x != y)
        && (!ambiguous && r == NULL ==> hits == {} && (par, c) == Slot(Keys(g.secs), g.tree, name, NULL, Less))
        && (!ambiguous && r != NULL ==> r >= 0 && hits == {r as nat})
    {
      hide KindsOk, HashOk, TreeOk, Dir.Layout, Slot, Compare, Before, Hits, Searching, Shape, Nodes, Ordered, Distinct, Size;
      ghost var keys := Keys(g.secs);
      ghost var tp, tq := g.tree, Nil;
      c, par, r, ambiguous := Less, NULL, NULL, false;
      TreeStart(D(), g);
      var p, q := names[0].rlink, NULL;
      SearchStart(keys, g.tree, name);
      NoShape(names);
      while p != NULL
        invariant Shape(names, p, tp) && Shape(names, q, tq) && (p == NULL ==> q == NULL)
        invariant Nodes(tp) <= keys.Keys && Searching(keys, g.tree, name, tp, tq, r, par, c)
        decreases Size(tp) + Size(tq)
      {
        ShapeAt(names, p, tp);
        var key := ReadKey(p);
        c := WebStrcmp(name, key);
        SearchStep(keys, g.tree, name, tp, tq, r, par, c);
        if c == Less || c == Greater {
          if r == NULL { par := p; }
          p := if c == Less then names[p].link else names[p].rlink;
          tp := if c == Less then tp.left else tp.right;
        } else {
          if r != NULL {
            ambiguous := true;
            return;
          }
          r := p;
          p := names[p].link;
          q := names[r].rlink;
          tp, tq := tp.left, tp.right;
        }
        ShapeNull(names, p, tp);
        SearchTrees(keys, g.tree, name, tp, tq, r, par, c);
        if p == NULL {
          SearchTurn(keys, g.tree, name, tq, r, par, c);
          p, q := q, NULL;
          tp, tq := tq, Nil;
        }
      }
      ShapeNull(names, p, tp);
      ShapeNull(names, q, tq);
      SearchEnd(keys, g.tree, name, r, par, c);
    }

    /** One chunk, from s on: whether it is to be continued, and its text without the blank. */
    method ReadChunk(cur: nat, s: nat, low: nat, ghost r: nat, ghost part: seq<nat>, ghost k: nat) returns (open: bool, text: Bytes)
      requires Valid() && r in g.secs && part == g.parts[r] && k <= |part|
      requires cur == CurAt(r, part, k) && cur < |names| && s == names[cur].start + (if k == 0 then 2 else 0)
      requires low == names[cur].start || low == s
      ensures cur + 1 < |names|
      ensures KindsOkAt(D(), r, part, k)
      ensures open == Open(Piece(D(), r, part, k)) && text == Strip(Piece(D(), r, part, k))
    {
      hide KindsOk, TreeOk, HashOk, Dir.Layout, Holds;
      KindsHold(D(), g, r);
      PieceBytes(D(), r, g.secs[r], part, k);
      var ss := names[cur + 1].start - 1;
      ghost var piece := Piece(D(), r, part, k);
      open := bytes[ss] == BLANK && ss >= low;
      if open {
        text := bytes[s..ss];
        assert bytes[s..ss + 1] == piece && |piece| == ss + 1 - s;
        WithoutLast(bytes, s, ss + 1);
      } else {
        text := bytes[s..ss + 1];
      }
    }

    /** `section_name_cmp` (cweb/common.c:962-991): walks the chunks of a stored name. */
    method SectionNameCmp(name: Bytes, r: nat) returns (c: NameCmp, rest: nat)
      requires Valid() && r in g.secs
      ensures c == CompareKnown(name, g.secs[r])
      ensures c == NExtension ==> rest == |g.secs[r].text| <= |name|
    {
      hide KindsOk, TreeOk, HashOk, Dir.Layout, Holds, Compare, CompareKnown, PartsText, Piece, Open, Strip, KindsOkAt;
      KindsHold(D(), g, r);
      ghost var sec, part, d := g.secs[r], g.parts[r], D();
      ghost var k := 0;
      var first, cur, q, s := 0, r, r + 1, names[r].start + 2;
      PieceFacts(d, r, sec, part, 0);
      while true
        invariant Within(d, part)
        invariant 0 <= k <= |part| && cur == CurAt(r, part, k) && cur < |names|
        invariant s == names[cur].start + (if k == 0 then 2 else 0)
        invariant q == if k == 0 then r + 1 else cur
        invariant 0 <= first <= |name| && sec.text == name[..first] + From(d, r, sec, part, k)
        decreases |part| - k
      {
        PieceFacts(d, r, sec, part, k);
        var open, text := ReadChunk(cur, s, names[cur].start, r, part, k);
        var next := 0;
        if open { next := names[q].link; }
        if k < |part| { NextFacts(d, r, sec, part, k); }
        var w := Directory.WebStrcmp(name[first..], text);
        ChunkDecides(name, sec, first, text, PartsText(d, part[k..]));
        rest := 0;
        match w {
          case Equal =>
            if next == 0 {
              if open { rest := first + |text|; c := NExtension; } else { c := NEqual; }
            } else {
              c := if names[next].start == names[next + 1].start then NEqual else NPrefix;
            }
            return;
          case Extension =>
            if !open { c := NBadExtension; return; }
            first := first + |text|;
            if next == 0 { rest := first; c := NExtension; return; }
            s, cur, q := names[next].start, next, next;
            k := k + 1;
          case Less => c := NLess; return;
          case Greater => c := NGreater; return;
          case Prefix => c := NPrefix; return;
        }
      }
    }

    /** `sprint_section_name` (cweb/common.c:762-780): everything known of the name. */
    method SprintSectionName(p: nat) returns (dest: Bytes)
      requires Valid() && p in g.secs
      ensures dest == g.secs[p].text
    {
      hide KindsOk, TreeOk, HashOk, Dir.Layout, Holds, PartsText, Piece, Open, Strip, KindsOkAt;
      KindsHold(D(), g, p);
      ghost var sec, part, d := g.secs[p], g.parts[p], D();
      ghost var k := 0;
      var cur, q, s := p, p + 1, names[p].start + 2;
      dest := [];
      PieceFacts(d, p, sec, part, 0);
      assert [] + sec.text == sec.text;
      while cur != 0
        invariant Within(d, part) && 0 <= k
        invariant cur == 0 ==> dest == sec.text
        invariant cur != 0 ==>
          && k <= |part| && cur == CurAt(p, part, k) && cur < |names|
          && s == names[cur].start + (if k == 0 then 2 else 0) && q == (if k == 0 then p + 1 else cur)
          && sec.text == dest + From(d, p, sec, part, k)
        decreases if cur == 0 then 0 else |part| + 1 - k
      {
        PieceFacts(d, p, sec, part, k);
        if k < |part| { NextFacts(d, p, sec, part, k); }
        var open, text := ReadChunk(cur, s, s, p, part, k);
        AppendAssociative(dest, text, PartsText(d, part[k..]));
        if open {
          cur := names[q].link;
          q := cur;
        } else {
          cur := 0;
        }
        dest := dest + text;
        s := names[cur].start;
        k := k + 1;
      }
    }

    /** `add_section_name`. */
    method AddSectionName(par: int, c: Cmp, name: Bytes, ispref: bool) returns (p: nat)
      requires 2 <= |names| && NULL <= par < D().Free()
      modifies this`bytes, this`names
      ensures p == old(D().Free()) && D() == WithSec(old(D()), name, ispref, par, c)
    {
      p := |names| - 1;
      bytes := bytes + (Header(|name|) + name + Tail(ispref));
      names := names[p := Name(names[p].start, NULL, NULL)];
      if ispref { names := names + [Name(|bytes|, 0, NULL)]; }
      names := names + [Name(|bytes|, NULL, NULL)];
      if par == NULL {
        names := names[0 := names[0].(rlink := p)];
      } else if c == Less {
        names := names[par := names[par].(link := p)];
      } else {
        names := names[par := names[par].(rlink := p)];
      }
      ghost var closed := old(names)[p := Name(old(names)[p].start, NULL, NULL)];
      assert closed + [] == closed;
    }

    /** The walk of `extend_section_name` to the end of the chunk chain. */
    method FindChainEnd(p: nat) returns (q: nat)
      requires Valid() && p in g.secs && !g.secs[p].complete
      ensures p in g.parts && q == ChainEnd(p, g.parts[p])
    {
      hide KindsOk, TreeOk, HashOk, Dir.Layout, PartsText, ChunksOk, Strip, Open;
      KindsHold(D(), g, p);
      ghost var d, part := D(), g.parts[p];
      ghost var chain := [p + 1] + part;
      assert Linked(d, chain);
      q := p + 1;
      ghost var k := 0;
      while names[q].link != 0
        invariant Linked(d, chain) && 0 <= k < |chain| && q == chain[k] < |names|
        decreases |chain| - k
      {
        LinkAt(d, chain, k);
        q := names[q].link;
        k := k + 1;
      }
      LinkAt(d, chain, k);
    }

    /** `extend_section_name`. */
    method ExtendSectionName(p: nat, rest: Bytes, ispref: bool)
      requires Valid() && p in g.secs && !g.secs[p].complete
      requires if ispref then rest != [] else !Open(rest)
      modifies this
      ensures Valid() && p in old(g).parts && g == ShadowWithChunk(old(g), p, rest, ispref)
      ensures IdsKept(old(D()), old(g), D(), g)
    {
      hide KindsOk, TreeOk, HashOk, Open;
      WithChunkInv(D(), g, p, rest, ispref);
      KindsCount(D(), g);
      var q := FindChainEnd(p);
      WithChunkGrows(D(), q, rest, ispref);
      var n := |names| - 1;
      names := names[q := names[q].(link := n)];
      names := names[n := names[n].(link := 0)];
      bytes := bytes + (rest + Tail(ispref));
      names := names + [Name(|bytes|, NULL, NULL)];
      assert D() == WithChunk(old(D()), q, rest, ispref);
      g := ShadowWithChunk(g, p, rest, ispref);
    }

    /** `set_prefix_length`, when the name is shorter than the key. */
    method ShortenKey(p: nat, name: Bytes)
      requires Valid() && p in g.secs && name != [] && name <= g.secs[p].key
      requires Nodes(g.tree) <= Keys(g.secs).Keys && Hits(Keys(g.secs), g.tree, name) <= {p}
      modifies this
      ensures Valid() && g == ShadowWithKey(old(g), p, name)
      ensures IdsKept(old(D()), old(g), D(), g)
    {
      hide KindsOk, TreeOk, HashOk, Hits;
      WithKeyInv(D(), g, p, name);
      KindsCount(D(), g);
      SecKind(D(), g, p);
      KindsHold(D(), g, p);
      WithKeySpans(D(), p, |name|);
      var i := names[p].start;
      bytes := bytes[i := |name| / 256];
      bytes := bytes[i + 1 := |name| % 256];
      assert D() == WithKey(old(D()), p, |name|);
      g := ShadowWithKey(g, p, name);
    }

    /** The case analysis at the end of `section_lookup` (cweb/common.c:920-937). */
    method Settle(r: nat, name: Bytes, ispref: bool) returns (diag: Diagnostic)
      requires Valid() && r in g.secs && (if ispref then name != [] else !Open(name))
      requires Nodes(g.tree) <= Keys(g.secs).Keys && Hits(Keys(g.secs), g.tree, name) == {r}
      modifies this
      ensures Valid() && g.secs == old(g).secs[r := Resolve(old(g).secs[r], name, ispref).0]
      ensures diag == Resolve(old(g).secs[r], name, ispref).1
      ensures diag == Fine ==> Means(g.secs[r], name, ispref)
      ensures g.tree == old(g).tree && IdsKept(old(D()), old(g), D(), g) && SecsKept(old(g).secs, g.secs)
    {
      hide KindsOk, TreeOk, HashOk, Hits, Compare, Dir.Layout, Holds, SecsKept;
      KindsCount(D(), g);
      ghost var sec := g.secs[r];
      KindsHold(D(), g, r);
      HoldsBounds(D(), r, sec, g.parts[r]);
      MatchedKey(g, r, name);
      ResolveGrows(g.secs, r, name, ispref);
      ResolveKeeps(g.secs[r], name, ispref);
      CompareMeaning(name, sec.text);
      assert g.secs[r := sec] == g.secs;
      var c, rest := SectionNameCmp(name, r);
      var key := ReadKey(r);
      diag := Fine;
      match c {
        case NPrefix =>
          if !ispref { diag := IsPrefix; }
          else if |name| < |key| { ShortenKey(r, name); }
        case NEqual =>
        case NExtension =>
          assert sec.text + name[rest..] == name;
          if !ispref || rest < |name| { ExtendSectionName(r, name[rest..], ispref); }
        case NBadExtension => diag := Extends;
        case NLess => diag := Incompatible;
        case NGreater => diag := Incompatible;
      }
    }

    /** A name that matches no key. */
    method EnterNew(name: Bytes, ispref: bool, par: int, c: Cmp) returns (p: nat)
      requires Valid() && (if ispref then name != [] else !Open(name)) && |name| < 65536
      requires Nodes(g.tree) <= Keys(g.secs).Keys && Hits(Keys(g.secs), g.tree, name) == {}
      requires (par, c) == Slot(Keys(g.secs), g.tree, name, NULL, Less)
      modifies this
      ensures Valid() && IdsKept(old(D()), old(g), D(), g) && SecsKept(old(g).secs, g.secs)
      ensures p == old(D().Free()) && g.secs == old(g).secs[p := Sec(name, name, !ispref)]
    {
      hide KindsOk, TreeOk, HashOk, Slot, Insert, Open, Hits, SecsKept;
      WithSecInv(D(), g, name, ispref);
      SlotInside(Keys(g.secs), g.tree, name, NULL, Less);
      KindsCount(D(), g);
      SecsClosed(D(), g);
      SecsUpdated(g.secs, D().Free(), Sec(name, name, !ispref));
      WithSecGrows(D(), name, ispref, par, c);
      p := AddSectionName(par, c, name, ispref);
      g := ShadowWithSec(g, name, ispref);
    }

    /**
     `section_lookup`. It agrees with a linear scan over the keys: a name no key is
     comparable with is entered as a new section; if two keys are, the lookup is
     ambiguous; and otherwise the one section is meant, and learns what the name adds.
     */
    method SectionLookup(name: Bytes, ispref: bool) returns (p: nat, diag: Diagnostic)
      requires Valid() && (if ispref then name != [] else !Open(name)) && |name| < 65536
      modifies this
      ensures Valid() && IdsKept(old(D()), old(g), D(), g) && SecsKept(old(g).secs, g.secs)
      ensures Nodes(old(g).tree) <= Keys(old(g).secs).Keys
      ensures var hits := Hits(Keys(old(g).secs), old(g).tree, name);
        && (hits == {} ==>
              p == old(D().Free()) && diag == Fine && g.secs == old(g).secs[p := Sec(name, name, !ispref)])
        && ((exists x, y :: x in hits && y in hits && x != y) ==>
              p == 0 && diag == Ambiguous && D() == old(D()) && g == old(g))
        && (forall r :: hits == {r} ==>
              && p == r && r in old(g).secs
              && (g.secs, diag) == (old(g).secs[r := Resolve(old(g).secs[r], name, ispref).0],
                                    Resolve(old(g).secs[r], name, ispref).1))
      ensures diag == Fine ==> p in g.secs && Means(g.secs[p], name, ispref)
    {
      hide KindsOk, TreeOk, HashOk, Slot, Resolve, Open, Comparable, IdsKept, SecsKept;
      var r, par, c, ambiguous := Search(name);
      ghost var hits := Hits(Keys(g.secs), g.tree, name);
      if ambiguous {
        NothingChanged(D(), g);
        SecsSame(g.secs);
        return 0, Ambiguous;
      }
      if r == NULL {
        p := EnterNew(name, ispref, par, c);
        return p, Fine;
      }
      assert r as nat in hits;
      diag := Settle(r, name, ispref);
      p := r;
    }

    /**
     Any history of lookups keeps the invariant and every identifier its entry; known section
     names grow at their ends only, and finished ones never change.
     */
    method Perform(history: seq<Lookup>)
      requires Valid() && forall i :: 0 <= i < |history| ==> Admissible(history[i])
      modifies this
      ensures Valid() && IdsKept(old(D()), old(g), D(), g) && SecsKept(old(g).secs, g.secs)
    {
      hide Inv, IdsKept, SecsKept, Resolve;
      NothingChanged(D(), g);
      SecsSame(g.secs);
      for i := 0 to |history|
        invariant Valid() && IdsKept(old(D()), old(g), D(), g) && SecsKept(old(g).secs, g.secs)
      {
        ghost var d1, g1 := D(), g;
        SecsSame(g.secs);
        assert Admissible(history[i]);
        match history[i] {
          case OfId(s) => var _ := IdLookup(s);
          case OfSection(name, ispref) => var _, _ := SectionLookup(name, ispref);
        }
        IdsKeptTransitive(old(D()), old(g), d1, g1, D(), g);
        SecsKeptTransitive(old(g).secs, g1.secs, g.secs);
      }
    }

    /** `id_lookup` twice, with any lookups in between: the same entry if and only if the same text. */
    method LookupTwice(s: Bytes, between: seq<Lookup>, t: Bytes) returns (p: int, q: int)
      requires Valid() && IsName(s) && IsName(t) && forall i :: 0 <= i < |between| ==> Admissible(between[i])
      modifies this
      ensures Valid() && p >= 0 && q >= 0 && (p == q <==> s == t)
    {
      hide Inv, IdsKept;
      p := IdLookup(s);
      ghost var d1, g1 := D(), g;
      Perform(between);
      ghost var d2, g2 := D(), g;
      q := IdLookup(t);
      IdsKeptTransitive(d1, g1, d2, g2, D(), g);
      IdsStable(d1, g1, D(), g, p, q);
    }

    /**
     `section_lookup` twice, with any lookups in between, the first without a diagnostic. A name
     that is the same or longer then means the same section, and no other: it is never entered,
     nor ambiguous. The same lookup is fine again. Two full names that are fine mean the same
     section if and only if they are the same.
     */
    method SectionTwice(name: Bytes, ispref: bool, between: seq<Lookup>, name2: Bytes, ispref2: bool)
        returns (p: nat, diag: Diagnostic, q: nat, diag2: Diagnostic)
      requires Valid() && Admissible(OfSection(name, ispref)) && Admissible(OfSection(name2, ispref2))
      requires forall i :: 0 <= i < |between| ==> Admissible(between[i])
      modifies this
      ensures Valid()
      ensures diag == Fine && name <= name2 ==> q == p && diag2 != Ambiguous
      ensures diag == Fine && name2 == name && ispref2 == ispref ==> diag2 == Fine
      ensures diag == Fine && diag2 == Fine && !ispref && !ispref2 ==> (p == q <==> name == name2)
    {
      hide Inv, IdsKept, SecsKept, Resolve, Means;
      p, diag := SectionLookup(name, ispref);
      ghost var secs1 := g.secs;
      Perform(between);
      ghost var g2 := g;
      if diag == Fine {
        MeansStays(secs1, g2.secs, p, name, ispref);
        if name <= name2 {
          OnlyMeant(D(), g2, p, name, ispref, name2);
          NeverAmbiguous(g2.secs[p], name2, ispref2);
        }
      }
      q, diag2 := SectionLookup(name2, ispref2);
      if diag == Fine && diag2 == Fine && !ispref && !ispref2 { SameMeant(g2.secs, g.secs, p, name, q, name2); }
      if diag == Fine && name2 == name { SameFine(g2.secs[p], name, ispref); }
    }
  }

  lemma MeansStays(secs: map<nat, Sec>, secs': map<nat, Sec>, p: nat, name: Bytes, ispref: bool)
    requires SecsKept(secs, secs') && p in secs && Means(secs[p], name, ispref)
    ensures p in secs' && Means(secs'[p], name, ispref)
  {
    assert Grown(secs[p], secs'[p]);
    assert ispref || secs'[p].text == secs[p].text;
  }

  /** A name that reaches the key of p is comparable with no other key, since the keys are apart. */
  lemma OnlyMeant(d: Dir, g: Shadow, p: nat, name: Bytes, ispref: bool, name2: Bytes)
    requires Inv(d, g) && p in g.secs && Means(g.secs[p], name, ispref) && name <= name2
    ensures Nodes(g.tree) <= Keys(g.secs).Keys && Hits(Keys(g.secs), g.tree, name2) == {p}
  {
    hide KindsOk, HashOk, Dir.Layout;
    var keys := Keys(g.secs);
    forall x | x in Hits(keys, g.tree, name2) ensures x == p {
      if x != p { OrderedIncomparable(keys, g.tree, p, x); }
    }
  }

  lemma NeverAmbiguous(sec: Sec, name: Bytes, ispref: bool)
    ensures Resolve(sec, name, ispref).1 != Ambiguous
  {
  }

  lemma SameFine(sec: Sec, name: Bytes, ispref: bool)
    requires Means(sec, name, ispref)
    ensures Resolve(sec, name, ispref).1 == Fine
  {
    hide Resolve;
    ResolveExact(sec, name, ispref);
  }

  lemma SameMeant(secs1: map<nat, Sec>, secs: map<nat, Sec>, p: nat, name: Bytes, q: nat, name2: Bytes)
    requires p in secs1 && Means(secs1[p], name, false) && SecsKept(secs1, secs)
    requires q in secs && Means(secs[q], name2, false) && (name == name2 ==> q == p)
    ensures p == q <==> name == name2
  {
    MeansStays(secs1, secs, p, name, false);
  }

  lemma NothingChanged(d: Dir, g: Shadow)
    requires Inv(d, g)
    ensures IdsKept(d, g, d, g)
  {
    hide TreeOk, HashOk;
  }

  lemma WithoutLast(bytes: Bytes, s: nat, e: nat)
    requires s < e <= |bytes|
    ensures bytes[s..e][..e - s - 1] == bytes[s..e - 1]
  {
  }

  lemma AppendAssociative(a: Bytes, b: Bytes, c: Bytes)
    ensures a + (b + c) == (a + b) + c
    ensures c == [] ==> (a + b) + c == a + b
  {
  }

  lemma LinkAt(d: Dir, chain: seq<nat>, k: nat)
    requires Linked(d, chain) && k < |chain|
    ensures chain[k] < d.Free() && d.names[chain[k]].link == if k + 1 < |chain| then chain[k + 1] else 0
    ensures k + 1 < |chain| ==> 0 < chain[k + 1] < d.Free()
  {
  }

  lemma KindsCount(d: Dir, g: Shadow)
    requires d.Layout() && KindsOk(d, g)
    ensures |g.kinds| == d.Free()
  {
  }

  /** The name and the key it matches are comparable. */
  lemma MatchedKey(g: Shadow, r: nat, name: Bytes)
    requires Nodes(g.tree) <= Keys(g.secs).Keys && Hits(Keys(g.secs), g.tree, name) == {r}
    ensures r in g.secs && Comparable(name, g.secs[r].key)
  {
    assert r in Hits(Keys(g.secs), g.tree, name);
  }

  // ----- The chunks of a name -----

  /** The entry that holds chunk k; chunk 0 is in the tree node itself. */
  ghost function CurAt(r: nat, part: seq<nat>, k: nat): nat
    requires k <= |part|
  {
    if k == 0 then r else part[k - 1]
  }

  ghost predicate KindsOkAt(d: Dir, r: nat, part: seq<nat>, k: nat) {
    d.Layout() && k <= |part| && CurAt(r, part, k) < d.Free() && (k == 0 ==> 2 <= |d.Span(r)|)
  }

  ghost function Piece(d: Dir, r: nat, part: seq<nat>, k: nat): Bytes
    requires d.Layout() && k <= |part| && CurAt(r, part, k) < d.Free() && (k == 0 ==> 2 <= |d.Span(r)|)
  {
    if k == 0 then d.Span(r)[2..] else d.Span(part[k - 1])
  }

  /** The known text from chunk k on. */
  ghost function From(d: Dir, r: nat, sec: Sec, part: seq<nat>, k: nat): Bytes
    requires d.Layout() && k <= |part| && (k > 0 ==> Within(d, part))
  {
    if k == 0 then sec.text else PartsText(d, part[k - 1..])
  }

  lemma PartsTextAt(d: Dir, part: seq<nat>, k: nat)
    requires d.Layout() && Within(d, part) && k <= |part|
    ensures k == |part| ==> PartsText(d, part[k..]) == []
    ensures k < |part| ==> PartsText(d, part[k..]) == Strip(d.Span(part[k])) + PartsText(d, part[k + 1..])
  {
    hide Dir.Layout, Strip;
    if k < |part| {
      assert part[k..][0] == part[k] && part[k..][1..] == part[k + 1..];
    } else {
      assert part[k..] == [];
    }
  }

  /** The links of a chunk chain, read one at a time. */
  lemma ChainAt(d: Dir, r: nat, part: seq<nat>, k: nat)
    requires Linked(d, [r + 1] + part) && k <= |part|
    ensures 0 < r + 1 < d.Free() && (k > 0 ==> r + 1 < part[k - 1] < d.Free())
    ensures d.names[if k == 0 then r + 1 else part[k - 1]].link == if k < |part| then part[k] else 0
  {
    var chain := [r + 1] + part;
    assert chain[k] == if k == 0 then r + 1 else part[k - 1];
    assert chain[0] == r + 1;
    if k < |part| {
      assert chain[k + 1] == part[k];
    }
    assert d.names[chain[k]].link == if k + 1 < |chain| then chain[k + 1] else 0;
  }

  /** A name with more than one chunk, or with room for more. */
  lemma OpenFacts(d: Dir, r: nat, sec: Sec, part: seq<nat>, k: nat)
    requires d.Layout() && k <= |part| && r < d.Free() && 2 <= |d.Span(r)|
    requires TailOk(d, r, d.Span(r)[2..], sec, part) && Open(d.Span(r)[2..])
    ensures Within(d, part) && CurAt(r, part, k) < d.Free()
    ensures var piece := Piece(d, r, part, k);
      && From(d, r, sec, part, k) == Strip(piece) + PartsText(d, part[k..])
      && (!Open(piece) ==> k == |part| && sec.complete)
      && (Open(piece) && k == |part| ==> !sec.complete)
  {
    hide Dir.Layout, Strip, Open, Linked, PartsText;
    if k > 0 {
      PartsTextAt(d, part, k - 1);
    } else {
      assert part[0..] == part;
    }
  }

  /** The text from chunk k on is chunk k and the text from the next one. */
  lemma PieceFacts(d: Dir, r: nat, sec: Sec, part: seq<nat>, k: nat)
    requires d.Layout() && Holds(d, r, sec, part) && k <= |part|
    ensures Within(d, part) && CurAt(r, part, k) < d.Free() && 2 <= |d.Span(r)| && (|d.Span(r)| == 2 ==> d.Span(r)[1] != BLANK)
    ensures var piece := Piece(d, r, part, k);
      && From(d, r, sec, part, k) == Strip(piece) + PartsText(d, part[k..])
      && (Open(piece) ==>
            && r + 1 < |d.names|
            && d.names[if k == 0 then r + 1 else part[k - 1]].link == if k < |part| then part[k] else 0)
      && (!Open(piece) ==> k == |part| && sec.complete)
      && (Open(piece) && k == |part| ==> !sec.complete)
    ensures k == |part| ==> PartsText(d, part[k..]) == []
  {
    hide Dir.Layout, Linked, PartsText, Open;
    if Open(d.Span(r)[2..]) {
      hide Strip;
      OpenFacts(d, r, sec, part, k);
      ChainAt(d, r, part, k);
    } else {
      assert part[k..] == [];
      assert Strip(d.Span(r)[2..]) + [] == Strip(d.Span(r)[2..]);
    }
    PartsTextAt(d, part, k);
  }

  /** A later chunk without bytes is the end of a finished name; any other adds text. */
  lemma NextFacts(d: Dir, r: nat, sec: Sec, part: seq<nat>, k: nat)
    requires d.Layout() && Holds(d, r, sec, part) && k < |part|
    ensures Within(d, part) && 0 < part[k] < d.Free()
    ensures d.names[part[k]].start == d.names[part[k] + 1].start <==> PartsText(d, part[k..]) == []
    ensures PartsText(d, part[k..]) == [] ==> sec.complete
  {
    assert TailOk(d, r, d.Span(r)[2..], sec, part);
    hide Linked, PartsText;
    ChainAt(d, r, part, k + 1);
    PartsTextAt(d, part, k);
    PartsTextAt(d, part, k + 1);
    assert d.names[part[k]].start <= d.names[part[k] + 1].start <= |d.bytes|;
    if k < |part| - 1 { assert Open(d.Span(part[k])); }
  }

  /** Where the bytes of chunk k are, and what its last byte says. */
  lemma PieceBytes(d: Dir, r: nat, sec: Sec, part: seq<nat>, k: nat)
    requires d.Layout() && Holds(d, r, sec, part) && k <= |part|
    ensures KindsOkAt(d, r, part, k)
    ensures var cur := CurAt(r, part, k);
      && cur + 1 < |d.names| && 1 <= d.names[cur + 1].start <= |d.bytes|
      && var s, e := d.names[cur].start + (if k == 0 then 2 else 0), d.names[cur + 1].start;
         && s <= e && d.bytes[s..e] == Piece(d, r, part, k)
         && (Open(Piece(d, r, part, k)) <==> d.bytes[e - 1] == BLANK && e - 1 >= d.names[cur].start)
         && (Open(Piece(d, r, part, k)) <==> d.bytes[e - 1] == BLANK && e - 1 >= s)
  {
    hide Holds, PartsText, Strip;
    PieceFacts(d, r, sec, part, k);
    if k > 0 { CursorForward(d, r, sec, part, k); }
    PieceAt(d, r, part, k);
  }

  lemma PieceAt(d: Dir, r: nat, part: seq<nat>, k: nat)
    requires KindsOkAt(d, r, part, k) && r < d.Free() && 2 <= |d.Span(r)| && (|d.Span(r)| == 2 ==> d.Span(r)[1] != BLANK)
    requires k > 0 ==> r + 1 < part[k - 1]
    ensures var cur := CurAt(r, part, k);
      && cur + 1 < |d.names| && 1 <= d.names[cur + 1].start <= |d.bytes|
      && var s, e := d.names[cur].start + (if k == 0 then 2 else 0), d.names[cur + 1].start;
         && s <= e && d.bytes[s..e] == Piece(d, r, part, k)
         && (Open(Piece(d, r, part, k)) <==> d.bytes[e - 1] == BLANK && e - 1 >= d.names[cur].start)
         && (Open(Piece(d, r, part, k)) <==> d.bytes[e - 1] == BLANK && e - 1 >= s)
  {
    var cur := CurAt(r, part, k);
    var s, e := d.names[cur].start + (if k == 0 then 2 else 0), d.names[cur + 1].start;
    assert d.names[r].start + 2 <= d.names[r + 1].start <= d.names[cur + 1].start;
    assert d.names[cur].start <= e <= |d.bytes|;
    var piece := Piece(d, r, part, k);
    assert d.bytes[s..e] == piece;
    if s < e {
      assert piece[|piece| - 1] == d.bytes[e - 1];
    } else if k == 0 {
      assert d.Span(r)[1] == d.bytes[e - 1];
    }
  }

  /** How the comparison with one chunk decides the comparison with the whole known text. */
  lemma ChunkDecides(name: Bytes, sec: Sec, first: nat, text: Bytes, tail: Bytes)
    requires first <= |name| && sec.text == name[..first] + (text + tail)
    ensures var c := Compare(name[first..], text);
      && (c == Less ==> CompareKnown(name, sec) == NLess)
      && (c == Greater ==> CompareKnown(name, sec) == NGreater)
      && (c == Prefix ==> CompareKnown(name, sec) == NPrefix)
      && (c == Equal && tail != [] ==> CompareKnown(name, sec) == NPrefix)
      && (c in {Equal, Extension} && tail == [] ==> first + |text| == |sec.text| <= |name|)
      && (c == Equal && tail == [] ==> CompareKnown(name, sec) == if sec.complete then NEqual else NExtension)
      && (c == Extension && tail == [] ==> CompareKnown(name, sec) == if sec.complete then NBadExtension else NExtension)
      && (c == Extension ==> first + |text| <= |name| && sec.text == name[..first + |text|] + tail)
  {
    hide Compare;
    var x := name[first..];
    assert name == name[..first] + x;
    CompareSkip(name[..first], x, text + tail);
    CompareMeaning(x, text);
    CompareFinal(x, text, tail);
    if text <= x {
      assert name[..first + |text|] == name[..first] + text;
      assert sec.text == name[..first] + text + tail;
    }
  }

  /** Chunks come after the entry they belong to. */
  lemma CursorForward(d: Dir, r: nat, sec: Sec, part: seq<nat>, k: nat)
    requires d.Layout() && Holds(d, r, sec, part) && 0 < k <= |part|
    ensures r + 1 < part[k - 1] < d.Free() && d.names[r + 1].start <= d.names[part[k - 1]].start
  {
    var chain := [r + 1] + part;
    assert chain[k] == part[k - 1] && chain[0] < chain[k];
  }

  /** How the comparison with one chunk decides the comparison with the rest of the text. */
  lemma CompareFinal(x: Bytes, text: Bytes, tail: Bytes)
    ensures Compare(x, text) in {Less, Greater, Prefix} ==> Compare(x, text + tail) == Compare(x, text)
    ensures x == text ==> Compare(x, text + tail) == if tail == [] then Equal else Prefix
    ensures tail == [] ==> Compare(x, text + tail) == Compare(x, text)
  {
    if Compare(x, text) in {Less, Greater, Prefix} { CompareAppend(x, text, tail); }
    CompareMeaning(x, text + tail);
    if tail == [] { assert text + tail == text; }
  }

  /** Where the key of a section name is stored. */
  lemma KeyBytes(d: Dir, p: nat, sec: Sec, part: seq<nat>)
    requires d.Layout() && Holds(d, p, sec, part)
    ensures p < |d.names|
    ensures var i := d.names[p].start;
      && i + 2 <= |d.bytes|
      && var m := d.bytes[i] * 256 + d.bytes[i + 1];
         0 <= m && i + 2 + m <= |d.bytes| && d.bytes[i + 2..i + 2 + m] == sec.key
  {
    hide TailOk;
    var i, e := d.names[p].start, d.names[p + 1].start;
    assert i <= e <= |d.bytes|;
    assert HeadOk(d, p, sec.key) && d.Span(p) == d.bytes[i..e];
    hide Dir.Layout, Dir.Span, Holds;
    SpanKey(d.bytes, i, e, sec.key);
  }

  /** The two length bytes and the key behind them. */
  lemma SpanKey(bytes: Bytes, i: nat, e: nat, key: Bytes)
    requires i <= e <= |bytes| && 2 <= e - i
    requires var span := bytes[i..e];
      |key| == span[0] * 256 + span[1] && key <= Strip(span[2..])
    ensures bytes[i] * 256 + bytes[i + 1] == |key| && i + 2 + |key| <= |bytes| && bytes[i + 2..i + 2 + |key|] == key
  {
    var span := bytes[i..e];
    assert span[2..] == bytes[i + 2..e];
    assert Strip(span[2..]) <= bytes[i + 2..e];
  }

  ghost function Size(t: Tree): nat {
    match t
    case Nil => 0
    case Node(_, l, r) => 1 + Size(l) + Size(r)
  }

  /** The state of a search: everything the name matches is r or in one of the two subtrees. */
  ghost predicate Searching(keys: map<nat, Bytes>, tree: Tree, name: Bytes, tp: Tree, tq: Tree, r: int, par: int, c: Cmp) {
    && Nodes(tree) <= keys.Keys
    && Nodes(tp) <= keys.Keys && Nodes(tq) <= keys.Keys && Ordered(keys, tp) && Ordered(keys, tq)
    && Distinct(tp) && Distinct(tq) && Nodes(tp) !! Nodes(tq)
    && (r == NULL || (r >= 0 && r !in Nodes(tp) && r !in Nodes(tq) && r in Hits(keys, tree, name)))
    && Hits(keys, tree, name) == (if r == NULL then {} else {r as nat}) + Hits(keys, tp, name) + Hits(keys, tq, name)
    && (r == NULL ==> tq == Nil && Slot(keys, tree, name, NULL, Less) == Slot(keys, tp, name, par, c))
  }

  lemma TreeStart(d: Dir, g: Shadow)
    requires TreeOk(d, g)
    ensures 0 < |d.names| && Shape(d.names, d.names[0].rlink, g.tree)
    ensures Nodes(g.tree) <= Keys(g.secs).Keys && Distinct(g.tree) && Ordered(Keys(g.secs), g.tree)
  {
  }

  lemma NoShape(names: seq<Name>)
    ensures Shape(names, NULL, Nil)
  {
  }

  lemma ShapeNull(names: seq<Name>, p: int, t: Tree)
    requires Shape(names, p, t)
    ensures p == NULL <==> t == Nil
  {
  }

  lemma ShapeAt(names: seq<Name>, p: int, t: Tree)
    requires Shape(names, p, t) && p != NULL
    ensures t.Node? && p == t.p && t.p in Nodes(t) && t.p < |names|
    ensures Shape(names, names[t.p].link, t.left) && Shape(names, names[t.p].rlink, t.right)
    ensures Size(t) == 1 + Size(t.left) + Size(t.right)
    ensures Nodes(t.left) <= Nodes(t) && Nodes(t.right) <= Nodes(t)
  {
  }

  lemma SearchTrees(keys: map<nat, Bytes>, tree: Tree, name: Bytes, tp: Tree, tq: Tree, r: int, par: int, c: Cmp)
    requires Searching(keys, tree, name, tp, tq, r, par, c)
    ensures Nodes(tp) <= keys.Keys && Nodes(tq) <= keys.Keys && Size(Nil) == 0
  {
  }

  lemma SearchStart(keys: map<nat, Bytes>, tree: Tree, name: Bytes)
    requires Nodes(tree) <= keys.Keys && Ordered(keys, tree) && Distinct(tree)
    ensures Searching(keys, tree, name, tree, Nil, NULL, NULL, Less)
  {
    hide Slot;
    NoChildren(keys);
    assert Hits(keys, Nil, name) == {};
  }

  lemma SearchTurn(keys: map<nat, Bytes>, tree: Tree, name: Bytes, tq: Tree, r: int, par: int, c: Cmp)
    requires Searching(keys, tree, name, Nil, tq, r, par, c)
    ensures Searching(keys, tree, name, tq, Nil, r, par, c)
  {
    hide Slot;
    NoChildren(keys);
  }

  lemma SearchEnd(keys: map<nat, Bytes>, tree: Tree, name: Bytes, r: int, par: int, c: Cmp)
    requires Searching(keys, tree, name, Nil, Nil, r, par, c)
    ensures var hits := Hits(keys, tree, name);
      && (r == NULL ==> hits == {} && (par, c) == Slot(keys, tree, name, NULL, Less))
      && (r != NULL ==> r >= 0 && hits == {r as nat})
  {
    NoChildren(keys);
    assert Hits(keys, Nil, name) == {};
    SlotEnd(keys, name, par, c);
  }

  /** One comparison: the search goes on below the node, or the node is a hit. */
  lemma SearchStep(keys: map<nat, Bytes>, tree: Tree, name: Bytes, tp: Tree, tq: Tree, r: int, par: int, c: Cmp)
    requires tp.Node? && Nodes(tp) <= keys.Keys && c == Compare(name, keys[tp.p])
    requires exists c0 :: Searching(keys, tree, name, tp, tq, r, par, c0)
    ensures c == Less ==> Searching(keys, tree, name, tp.left, tq, r, if r == NULL then tp.p else par, c)
    ensures c == Greater ==> Searching(keys, tree, name, tp.right, tq, r, if r == NULL then tp.p else par, c)
    ensures c != Less && c != Greater && r == NULL ==> Searching(keys, tree, name, tp.left, tp.right, tp.p, par, c)
    ensures c != Less && c != Greater && r != NULL ==>
      exists x, y :: x in Hits(keys, tree, name) && y in Hits(keys, tree, name) && x != y
  {
    hide Hits, Slot, Ordered, Distinct, Nodes, Compare, Before, Comparable;
    var c0 :| Searching(keys, tree, name, tp, tq, r, par, c0);
    Children(keys, tp);
    HitsOneSide(keys, tp, name);
    CompareMeaning(name, keys[tp.p]);
    if c == Less || c == Greater {
      SlotStep(keys, tp, name, par, c);
    } else if r == NULL {
      NoHits(keys, name);
    } else {
      assert r as nat in Hits(keys, tree, name) && tp.p in Hits(keys, tree, name);
    }
  }

  lemma NoHits(keys: map<nat, Bytes>, name: Bytes)
    ensures Nodes(Nil) == {} && Hits(keys, Nil, name) == {}
  {
  }

  lemma Children(keys: map<nat, Bytes>, t: Tree)
    requires t.Node? && Nodes(t) <= keys.Keys && Ordered(keys, t) && Distinct(t)
    ensures Nodes(t) == {t.p} + Nodes(t.left) + Nodes(t.right)
    ensures t.p !in Nodes(t.left) && t.p !in Nodes(t.right) && Nodes(t.left) !! Nodes(t.right)
    ensures Ordered(keys, t.left) && Ordered(keys, t.right) && Distinct(t.left) && Distinct(t.right)
  {
  }

  lemma NoChildren(keys: map<nat, Bytes>)
    ensures Nodes(Nil) == {} && Ordered(keys, Nil) && Distinct(Nil)
  {
  }

  lemma SlotStep(keys: map<nat, Bytes>, t: Tree, name: Bytes, par: int, c: Cmp)
    requires t.Node? && Nodes(t) <= keys.Keys && Compare(name, keys[t.p]) == c && (c == Less || c == Greater)
    ensures Slot(keys, t, name, par, c) == Slot(keys, if c == Less then t.left else t.right, name, t.p, c)
    ensures forall par', c' :: Slot(keys, t, name, par', c') == Slot(keys, t, name, par, c)
  {
  }

  lemma SlotEnd(keys: map<nat, Bytes>, name: Bytes, par: int, c: Cmp)
    ensures Slot(keys, Nil, name, par, c) == (par, c)
  {
  }

  /** Entries found at different times: the same entry if and only if the same text. */
  lemma IdsStable(d: Dir, g: Shadow, d': Dir, g': Shadow, p: nat, q: nat)
    requires Inv(d', g') && IdsKept(d, g, d', g')
    requires p < d.Free() && q < d'.Free() && g.kinds[p] == Id && g'.kinds[q] == Id
    ensures p == q <==> d.Span(p) == d'.Span(q)
  {
    hide Dir.Layout, Dir.Span;
    assert g'.kinds[p] == g.kinds[p] && d'.Span(p) == d.Span(p);
    if d'.Span(p) == d'.Span(q) { OncePerText(d', g', p, q); }
  }

  lemma OncePerText(d: Dir, g: Shadow, p: nat, q: nat)
    requires Inv(d, g) && p < d.Free() && q < d.Free() && |g.kinds| == d.Free() && g.kinds[p] == Id && g.kinds[q] == Id
    requires d.Span(p) == d.Span(q)
    ensures p == q
  {
  }

  lemma IdsKeptTransitive(d: Dir, g: Shadow, d': Dir, g': Shadow, d'': Dir, g'': Shadow)
    requires IdsKept(d, g, d', g') && IdsKept(d', g', d'', g'')
    ensures IdsKept(d, g, d'', g'')
  {
    hide Dir.Layout, Dir.Span;
    forall q | 0 <= q < d.Free() && g.kinds[q] == Id ensures d''.Span(q) == d.Span(q) {
      assert g'.kinds[q] == g.kinds[q];
    }
  }
}
