/**
 Comparison of section names, and searching a tree of abbreviated names
 (cweb/common.c:798-809, 869-915).
 */
module NameOrder {
  type Bytes = seq<int>

  datatype Cmp = Less | Equal | Greater | Prefix | Extension

  /** The length of the common prefix. */
  function Common(j: Bytes, k: Bytes): (n: nat)
    ensures n <= |j| && n <= |k| && j[..n] == k[..n]
    ensures n < |j| && n < |k| ==> j[n] != k[n]
  {
    if j != [] && k != [] && j[0] == k[0] then
      var m := Common(j[1..], k[1..]);
      assert j[..1 + m] == [j[0]] + j[1..][..m] && k[..1 + m] == [k[0]] + k[1..][..m];
      1 + m
    else 0
  }

  /** How j relates to k. */
  function Compare(j: Bytes, k: Bytes): Cmp {
    var n := Common(j, k);
    if n == |k| then (if n == |j| then Equal else Extension)
    else if n == |j| then Prefix
    else if j[n] < k[n] then Less
    else Greater
  }

  /** One is a prefix of the other. */
  ghost predicate Comparable(j: Bytes, k: Bytes) {
    j <= k || k <= j
  }

  /** The lexicographic order proper: decided at a position inside both. */
  ghost predicate Before(j: Bytes, k: Bytes) {
    exists n :: DecidedAt(j, k, n)
  }

  ghost predicate DecidedAt(j: Bytes, k: Bytes, n: int) {
    0 <= n < |j| && n < |k| && j[..n] == k[..n] && j[n] < k[n]
  }

  lemma CommonUnique(j: Bytes, k: Bytes, n: nat)
    requires n <= |j| && n <= |k| && j[..n] == k[..n]
    requires n == |j| || n == |k| || j[n] != k[n]
    ensures Common(j, k) == n
  {
    var c := Common(j, k);
    assert forall i :: 0 <= i < n ==> j[..n][i] == k[..n][i];
    assert forall i :: 0 <= i < c ==> j[..c][i] == k[..c][i];
  }

  /** What each outcome of the comparison says, and that they exclude each other. */
  lemma CompareMeaning(j: Bytes, k: Bytes)
    ensures Compare(j, k) == Equal <==> j == k
    ensures Compare(j, k) == Prefix <==> j < k
    ensures Compare(j, k) == Extension <==> k < j
    ensures Compare(j, k) == Less <==> Before(j, k)
    ensures Compare(j, k) == Greater <==> Before(k, j)
    ensures Compare(j, k) in {Less, Greater} <==> !Comparable(j, k)
  {
    var n := Common(j, k);
    if n < |j| && n < |k| {
      assert j[n] != k[n];
      if j[n] < k[n] { assert DecidedAt(j, k, n); } else { assert DecidedAt(k, j, n); }
      assert !(j <= k) && !(k <= j);
    } else if n == |j| {
      assert j[..n] == j && j <= k;
    } else {
      assert k[..n] == k && k <= j;
    }
    forall i | DecidedAt(j, k, i) ensures n == i { CommonUnique(j, k, i); }
    forall i | DecidedAt(k, j, i) ensures n == i { CommonUnique(j, k, i); }
  }

  /** A common beginning does not matter. */
  lemma CompareSkip(a: Bytes, x: Bytes, y: Bytes)
    ensures Compare(a + x, a + y) == Compare(x, y)
  {
    var n := Common(x, y);
    assert (a + x)[..|a| + n] == a + x[..n] && (a + y)[..|a| + n] == a + y[..n];
    CommonUnique(a + x, a + y, |a| + n);
  }

  /** Neither does what follows once the comparison is decided, or the first name is used up. */
  lemma CompareAppend(x: Bytes, k: Bytes, more: Bytes)
    requires Compare(x, k) in {Less, Greater, Prefix}
    ensures Compare(x, k + more) == Compare(x, k)
  {
    var n := Common(x, k);
    assert (k + more)[..n] == k[..n];
    CommonUnique(x, k + more, n);
  }

  lemma BeforeTransitive(a: Bytes, b: Bytes, c: Bytes)
    requires Before(a, b) && Before(b, c)
    ensures Before(a, c)
  {
    var i :| DecidedAt(a, b, i);
    var j :| DecidedAt(b, c, j);
    var n := if i < j then i else j;
    assert a[..n] == a[..i][..n] && b[..n] == b[..i][..n] && b[..n] == b[..j][..n] && c[..n] == c[..j][..n];
    if i < j { assert b[..j][i] == c[..j][i]; }
    if j < i { assert a[..i][j] == b[..i][j]; }
    assert DecidedAt(a, c, n);
  }

  /** The order is decided before either name ends, so extending them does not change it. */
  lemma BeforeExtends(a: Bytes, b: Bytes, a': Bytes, b': Bytes)
    requires Before(a, b) && a <= a' && b <= b'
    ensures Before(a', b')
  {
    var n :| DecidedAt(a, b, n);
    assert a'[..n] == a[..n] && b'[..n] == b[..n];
    assert DecidedAt(a', b', n);
  }

  /** Shortening a name keeps its place among names it stays incomparable with. */
  lemma BeforeShortens(a: Bytes, b: Bytes, a': Bytes)
    requires a' <= a && !Comparable(a', b)
    ensures Before(a, b) <==> Before(a', b)
    ensures Before(b, a) <==> Before(b, a')
  {
    CompareMeaning(a', b);
    if Before(a', b) { BeforeExtends(a', b, a, b); } else { BeforeExtends(b, a', b, a); }
    CompareMeaning(a, b);
  }

  // ----- Trees of keys -----

  datatype Tree = Nil | Node(p: nat, left: Tree, right: Tree)

  ghost function Nodes(t: Tree): set<nat> {
    match t
    case Nil => {}
    case Node(p, l, r) => {p} + Nodes(l) + Nodes(r)
  }

  /** No node occurs twice. */
  ghost predicate Distinct(t: Tree) {
    match t
    case Nil => true
    case Node(p, l, r) =>
      && p !in Nodes(l) && p !in Nodes(r) && Nodes(l) !! Nodes(r) && Distinct(l) && Distinct(r)
  }

  /** Keys increase from left to right; neighbours are decided inside both of them. */
  ghost predicate Ordered(keys: map<nat, Bytes>, t: Tree)
    requires Nodes(t) <= keys.Keys
  {
    match t
    case Nil => true
    case Node(p, l, r) =>
      && (forall x :: x in Nodes(l) ==> Before(keys[x], keys[p]))
      && (forall x :: x in Nodes(r) ==> Before(keys[p], keys[x]))
      && Ordered(keys, l) && Ordered(keys, r)
  }

  /** The nodes whose key is comparable with the name: what a linear scan would find. */
  ghost function Hits(keys: map<nat, Bytes>, t: Tree, name: Bytes): set<nat>
    requires Nodes(t) <= keys.Keys
  {
    set x | x in Nodes(t) && Comparable(name, keys[x])
  }

  /** An incomparable key sends the whole search to one side. */
  lemma HitsOneSide(keys: map<nat, Bytes>, t: Tree, name: Bytes)
    requires t.Node? && Nodes(t) <= keys.Keys && Ordered(keys, t)
    ensures Before(name, keys[t.p]) ==> Hits(keys, t, name) == Hits(keys, t.left, name)
    ensures Before(keys[t.p], name) ==> Hits(keys, t, name) == Hits(keys, t.right, name)
    ensures Comparable(name, keys[t.p]) ==>
      Hits(keys, t, name) == {t.p} + Hits(keys, t.left, name) + Hits(keys, t.right, name)
  {
    CompareMeaning(name, keys[t.p]);
    if Before(name, keys[t.p]) {
      forall x | x in Nodes(t.right) ensures !Comparable(name, keys[x]) {
        BeforeTransitive(name, keys[t.p], keys[x]);
        CompareMeaning(name, keys[x]);
      }
    }
    if Before(keys[t.p], name) {
      forall x | x in Nodes(t.left) ensures !Comparable(name, keys[x]) {
        BeforeTransitive(keys[x], keys[t.p], name);
        CompareMeaning(keys[x], name);
      }
    }
  }

  /** Keys in an ordered tree are pairwise incomparable. */
  lemma {:induction false} OrderedIncomparable(keys: map<nat, Bytes>, t: Tree, x: nat, y: nat)
    requires Nodes(t) <= keys.Keys && Ordered(keys, t) && x in Nodes(t) && y in Nodes(t) && x != y
    ensures !Comparable(keys[x], keys[y])
  {
    var l, r := Nodes(t.left), Nodes(t.right);
    if x in l && y in l { OrderedIncomparable(keys, t.left, x, y); }
    else if x in r && y in r { OrderedIncomparable(keys, t.right, x, y); }
    else {
      if x in l && y in r { BeforeTransitive(keys[x], keys[t.p], keys[y]); }
      if y in l && x in r { BeforeTransitive(keys[y], keys[t.p], keys[x]); }
      CompareMeaning(keys[x], keys[y]);
    }
  }

  /** Where an unmatched name is hung: the last node on its path, and the side. */
  function Slot(keys: map<nat, Bytes>, t: Tree, name: Bytes, par: int, c: Cmp): (int, Cmp)
    requires Nodes(t) <= keys.Keys
  {
    match t
    case Nil => (par, c)
    case Node(p, l, r) =>
      if Compare(name, keys[p]) == Less then Slot(keys, l, name, p, Less)
      else Slot(keys, r, name, p, Greater)
  }

  /** The tree with a new leaf in that place. */
  function Insert(keys: map<nat, Bytes>, t: Tree, name: Bytes, new_: nat): Tree
    requires Nodes(t) <= keys.Keys
  {
    match t
    case Nil => Node(new_, Nil, Nil)
    case Node(p, l, r) =>
      if Compare(name, keys[p]) == Less then Node(p, Insert(keys, l, name, new_), r)
      else Node(p, l, Insert(keys, r, name, new_))
  }

  /** A name no key is comparable with can be inserted without breaking the order. */
  lemma {:induction false} InsertOrdered(keys: map<nat, Bytes>, t: Tree, name: Bytes, new_: nat)
    requires Nodes(t) <= keys.Keys && Ordered(keys, t) && Distinct(t) && new_ !in Nodes(t)
    requires Hits(keys, t, name) == {}
    ensures var t', keys' := Insert(keys, t, name, new_), keys[new_ := name];
      Nodes(t') == Nodes(t) + {new_} && Distinct(t') && Ordered(keys', t')
  {
    match t
    case Nil =>
    case Node(p, l, r) =>
      assert p !in Hits(keys, t, name);
      CompareMeaning(name, keys[p]);
      var keys' := keys[new_ := name];
      forall x | x in Nodes(l) ensures x !in Hits(keys, l, name) { assert x !in Hits(keys, t, name); }
      forall x | x in Nodes(r) ensures x !in Hits(keys, r, name) { assert x !in Hits(keys, t, name); }
      if Compare(name, keys[p]) == Less {
        InsertOrdered(keys, l, name, new_);
        OrderedFrame(keys, keys', r);
      } else {
        InsertOrdered(keys, r, name, new_);
        OrderedFrame(keys, keys', l);
      }
  }

  lemma {:induction false} OrderedFrame(keys: map<nat, Bytes>, keys': map<nat, Bytes>, t: Tree)
    requires Nodes(t) <= keys.Keys && Ordered(keys, t)
    requires Nodes(t) <= keys'.Keys && forall x :: x in Nodes(t) ==> keys'[x] == keys[x]
    ensures Ordered(keys', t)
  {
    if t.Node? {
      OrderedFrame(keys, keys', t.left);
      OrderedFrame(keys, keys', t.right);
    }
  }

  /** Shortening the only matching key to the name keeps the tree ordered. */
  lemma {:induction false} ShortenOrdered(keys: map<nat, Bytes>, t: Tree, name: Bytes, p: nat)
    requires Nodes(t) <= keys.Keys && Ordered(keys, t) && Distinct(t)
    requires p in keys && name <= keys[p] && Hits(keys, t, name) <= {p}
    ensures Ordered(keys[p := name], t)
  {
    if t.Node? {
      var keys' := keys[p := name];
      forall x | x in Nodes(t) && x != p
        ensures !Comparable(name, keys[x])
      {
        assert x !in Hits(keys, t, name);
      }
      forall x | x in Nodes(t.left) ensures x !in Hits(keys, t.left, name) || x == p { }
      forall x | x in Nodes(t.right) ensures x !in Hits(keys, t.right, name) || x == p { }
      ShortenOrdered(keys, t.left, name, p);
      ShortenOrdered(keys, t.right, name, p);
      forall x | x in Nodes(t.left) ensures Before(keys'[x], keys'[t.p]) {
        if x == p { BeforeShortens(keys[x], keys[t.p], name); }
        if t.p == p { BeforeShortens(keys[p], keys[x], name); }
      }
      forall x | x in Nodes(t.right) ensures Before(keys'[t.p], keys'[x]) {
        if x == p { BeforeShortens(keys[x], keys[t.p], name); }
        if t.p == p { BeforeShortens(keys[p], keys[x], name); }
      }
    }
  }
}
