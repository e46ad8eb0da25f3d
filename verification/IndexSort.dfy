/**
 CWEAVE's index sort: a radix sort from the front, with buckets linked through one array
 and a stack of lists still to be refined (cweb/cweave.c:886-911, 3980-4104, 4139-4154).
 */
module IndexSort {
  type Bytes = seq<int>

  const INFINITY := 255
  const RANKS := 229  // entries of collate

  // ----- The collating order -----

  /** Case folding of a byte. */
  function Fold(b: int): int {
    if 65 <= b <= 90 then b + 32 else b
  }

  /** `collate[k]`, the byte that comes k-th. */
  function Collate(k: nat): (b: int)
    requires k < RANKS
    ensures 0 <= b < 256
  {
    if k == 0 then 0
    else if k == 1 then 32
    else if k <= 32 then k - 1
    else if k <= 47 then k
    else if k <= 54 then k + 10
    else if k <= 58 then k + 36
    else if k == 59 then 96
    else if k <= 63 then k + 63
    else if k == 64 then 95
    else if k <= 90 then k + 32
    else if k <= 100 then k - 43
    else k + 27
  }

  /** The place of a folded byte in that order. */
  function RankOf(b: int): (k: nat)
    requires 0 <= b < 256 && Fold(b) == b && b != 127
    ensures k < RANKS && Collate(k) == b && (k == 0 <==> b == 0)
  {
    if b == 0 then 0
    else if b == 32 then 1
    else if b <= 31 then b + 1
    else if b <= 47 then b
    else if b <= 57 then b + 43
    else if b <= 64 then b - 10
    else if b <= 94 then b - 36
    else if b == 95 then 64
    else if b == 96 then 59
    else if b <= 122 then b - 32
    else if b <= 126 then b - 63
    else b - 27
  }

  /** No byte is listed twice. */
  lemma CollateInjective(j: nat, k: nat)
    requires j < RANKS && k < RANKS && Collate(j) == Collate(k)
    ensures j == k
  {
  }

  // ----- Names and their order -----

  ghost predicate Sortable(s: Bytes) {
    0 < |s| < INFINITY && forall i :: 0 <= i < |s| ==> 0 < s[i] < 256 && s[i] != 127
  }

  /** The i-th collating rank of a name; past its end, the rank of nothing. */
  function At(s: Bytes, i: nat): (k: nat)
    ensures k < RANKS && (Sortable(s) ==> (k == 0 <==> i >= |s|))
  {
    if i < |s| && 0 < s[i] < 256 && s[i] != 127 then RankOf(Fold(s[i])) else 0
  }

  /** The names agree, case apart, in their first d places. */
  ghost predicate Agree(a: Bytes, b: Bytes, d: nat)
  {
    forall i :: 0 <= i < d ==> At(a, i) == At(b, i)
  }

  /** The collating order on folded names. */
  ghost predicate Less(a: Bytes, b: Bytes)
  {
    exists i: nat :: Agree(a, b, i) && At(a, i) < At(b, i)
  }

  /** The same name, case apart. */
  ghost predicate Same(a: Bytes, b: Bytes)
  {
    forall i: nat :: At(a, i) == At(b, i)
  }

  /** Being the same is being equal after folding. */
  lemma SameFolded(a: Bytes, b: Bytes)
    requires Sortable(a) && Sortable(b)
    ensures Same(a, b) <==> |a| == |b| && forall i :: 0 <= i < |a| ==> Fold(a[i]) == Fold(b[i])
  {
    if Same(a, b) {
      assert At(a, |b|) == At(b, |b|) && At(a, |a|) == At(b, |a|);
      forall i | 0 <= i < |a| ensures Fold(a[i]) == Fold(b[i]) {
        assert At(a, i) == At(b, i);
        assert Collate(At(a, i)) == Fold(a[i]) && Collate(At(b, i)) == Fold(b[i]);
      }
    }
    if |a| == |b| && forall i :: 0 <= i < |a| ==> Fold(a[i]) == Fold(b[i]) {
      forall i: nat ensures At(a, i) == At(b, i) { }
    }
  }

  /** Names that agree in d places and both end there are the same. */
  lemma EndTogether(a: Bytes, b: Bytes, d: nat)
    requires Sortable(a) && Sortable(b) && Agree(a, b, d) && |a| <= d && |b| <= d
    ensures Same(a, b)
  {
    forall i: nat ensures At(a, i) == At(b, i) { }
  }

  // ----- The order, without the table -----

  /** How early a folded byte comes: the blank, control codes, other signs, the underscore, letters, digits, high bytes. */
  function Class(b: int): nat {
    if b == ' ' as int then 0
    else if b < ' ' as int then 1
    else if b == '_' as int then 3
    else if 'a' as int <= b <= 'z' as int then 4
    else if '0' as int <= b <= '9' as int then 5
    else if b > 127 then 6
    else 2
  }

  /** Within a class, bytes come in their own order. */
  predicate Comes(b: int, c: int) {
    Class(b) < Class(c) || (Class(b) == Class(c) && b < c)
  }

  /** Capital letters count as small ones. */
  function Small(b: int): int {
    if 'A' as int <= b <= 'Z' as int then b - 'A' as int + 'a' as int else b
  }

  /** The first place where two names differ, case apart, decides; a name comes before those that continue it. */
  ghost predicate Earlier(a: Bytes, b: Bytes) {
    exists i :: DecidedAt(a, b, i)
  }

  ghost predicate DecidedAt(a: Bytes, b: Bytes, i: int) {
    && 0 <= i <= |a| && i < |b| && (forall j :: 0 <= j < i ==> Small(a[j]) == Small(b[j]))
    && (i == |a| || Comes(Small(a[i]), Small(b[i])))
  }

  ghost predicate EqualSmall(a: Bytes, b: Bytes) {
    |a| == |b| && forall i :: 0 <= i < |a| ==> Small(a[i]) == Small(b[i])
  }

  lemma RankOrder(b: int, c: int)
    requires 0 < b < 256 && b != 127 && 0 < c < 256 && c != 127
    ensures RankOf(Fold(b)) < RankOf(Fold(c)) <==> Comes(Small(b), Small(c))
    ensures 0 < RankOf(Fold(b)) && (RankOf(Fold(b)) == RankOf(Fold(c)) <==> Small(b) == Small(c))
  {
  }

  lemma PlacesOrder(a: Bytes, b: Bytes, i: nat)
    requires Sortable(a) && Sortable(b) && i <= |a| && i <= |b|
    ensures At(a, i) < At(b, i) <==> i < |b| && (i == |a| || Comes(Small(a[i]), Small(b[i])))
    ensures At(a, i) == At(b, i) <==> (i == |a| == |b| || (i < |a| && i < |b| && Small(a[i]) == Small(b[i])))
  {
    if i < |a| && i < |b| { RankOrder(a[i], b[i]); }
  }

  /** The collating order is this one. */
  lemma LessMeans(a: Bytes, b: Bytes)
    requires Sortable(a) && Sortable(b)
    ensures Less(a, b) <==> Earlier(a, b)
    ensures Same(a, b) <==> EqualSmall(a, b)
  {
    hide Class, Comes;
    SameFolded(a, b);
    if Less(a, b) {
      var i: nat :| Agree(a, b, i) && At(a, i) < At(b, i);
      AgreeMeans(a, b, i);
      PlacesOrder(a, b, i);
      assert DecidedAt(a, b, i);
    }
    if Earlier(a, b) {
      var i :| DecidedAt(a, b, i);
      forall j | 0 <= j < i ensures At(a, j) == At(b, j) { PlacesOrder(a, b, j); }
      PlacesOrder(a, b, i);
      assert Agree(a, b, i) && At(a, i) < At(b, i);
    }
  }

  /** Up to a place where they differ, both names go on. */
  lemma AgreeMeans(a: Bytes, b: Bytes, i: nat)
    requires Sortable(a) && Sortable(b) && Agree(a, b, i) && At(a, i) < At(b, i)
    ensures i <= |a| && i < |b| && forall j :: 0 <= j < i ==> Small(a[j]) == Small(b[j])
  {
    assert |a| < i ==> At(a, |a|) == At(b, |a|);
    forall j | 0 <= j < i ensures Small(a[j]) == Small(b[j]) {
      assert At(a, j) == At(b, j);
      PlacesOrder(a, b, j);
    }
  }

  /** In a sorted index every name precedes those behind it, or is the same up to case. */
  lemma SortedMeans(texts: seq<Bytes>, out: seq<nat>)
    requires Sorted(texts, out) && forall i :: 0 <= i < |out| ==> Sortable(texts[out[i]])
    ensures forall i, j :: 0 <= i < j < |out| ==>
      Earlier(texts[out[i]], texts[out[j]]) || EqualSmall(texts[out[i]], texts[out[j]])
  {
    hide Earlier, EqualSmall, Less, Same;
    forall i, j | 0 <= i < j < |out|
      ensures Earlier(texts[out[i]], texts[out[j]]) || EqualSmall(texts[out[i]], texts[out[j]])
    {
      LessMeans(texts[out[i]], texts[out[j]]);
    }
  }

  ghost predicate Letters(s: Bytes) {
    forall i :: 0 <= i < |s| ==> 'a' as int <= Small(s[i]) <= 'z' as int
  }

  /** The lexicographic order: the first different letter decides, and a name comes before those that continue it. */
  ghost predicate LexicographicAt(a: Bytes, b: Bytes, i: int) {
    && 0 <= i <= |a| && i < |b| && (forall j :: 0 <= j < i ==> Small(a[j]) == Small(b[j]))
    && (i == |a| || Small(a[i]) < Small(b[i]))
  }

  /** It is the order of names of letters. */
  lemma LettersInOrder(a: Bytes, b: Bytes)
    requires Letters(a) && Letters(b)
    ensures Earlier(a, b) <==> exists i :: LexicographicAt(a, b, i)
  {
    hide Small;
    if Earlier(a, b) {
      var i :| DecidedAt(a, b, i);
      assert LexicographicAt(a, b, i);
    }
    if i :| LexicographicAt(a, b, i) {
      assert DecidedAt(a, b, i);
    }
  }

  // ----- Linked lists -----

  /** The list that starts at head and is linked through blink; 0 ends it. */
  ghost predicate IsList(blink: seq<nat>, head: nat, l: seq<nat>)
    decreases |l|
  {
    if l == [] then head == 0
    else head == l[0] && 0 < l[0] < |blink| && IsList(blink, blink[l[0]], l[1..])
  }

  ghost predicate NoDup(l: seq<nat>) {
    forall i, j :: 0 <= i < j < |l| ==> l[i] != l[j]
  }

  /** Changing the link of a name that is not in the list does not matter to it. */
  lemma {:induction false} ListFrame(blink: seq<nat>, head: nat, l: seq<nat>, n: nat, x: nat)
    requires IsList(blink, head, l) && n < |blink| && n !in l
    ensures IsList(blink[n := x], head, l)
    decreases |l|
  {
    if l != [] {
      assert l[0] in l;
      forall y | y in l[1..] ensures y in l { }
      ListFrame(blink, blink[l[0]], l[1..], n, x);
    }
  }

  /** Where a name is at the moment. */
  datatype Place = Nowhere | InRest | InBucket(k: nat) | OnStack(i: nat) | Written

  /** The list holds exactly the names that are in that place. */
  ghost predicate Holds(place: seq<Place>, l: seq<nat>, p: Place) {
    && NoDup(l)
    && (forall n :: n in l ==> 0 < n < |place| && place[n] == p)
    && (forall n :: 0 < n < |place| && place[n] == p ==> n in l)
  }

  // ----- The list of a place -----

  /** From head hangs, through blink, the list of the names that are at p, each once. */
  ghost predicate ListOf(place: seq<Place>, blink: seq<nat>, head: nat, p: Place) {
    exists l: seq<nat> :: IsList(blink, head, l) && Holds(place, l, p)
  }

  lemma ListEmpty(place: seq<Place>, blink: seq<nat>, p: Place)
    requires forall n :: 0 < n < |place| ==> place[n] != p
    ensures ListOf(place, blink, 0, p)
  {
    assert IsList(blink, 0, []) && Holds(place, [], p);
  }

  lemma ListNull(place: seq<Place>, blink: seq<nat>, p: Place)
    requires ListOf(place, blink, 0, p)
    ensures forall n :: 0 < n < |place| ==> place[n] != p
  {
    var l: seq<nat> :| IsList(blink, 0, l) && Holds(place, l, p);
  }

  lemma ListHead(place: seq<Place>, blink: seq<nat>, head: nat, p: Place)
    requires ListOf(place, blink, head, p) && head != 0
    ensures 0 < head < |blink| && head < |place| && place[head] == p
  {
    var l: seq<nat> :| IsList(blink, head, l) && Holds(place, l, p);
    assert l[0] in l;
  }

  /** Taking a name out of the front. */
  lemma ListPop(place: seq<Place>, blink: seq<nat>, head: nat, p: Place, q: Place)
    requires ListOf(place, blink, head, p) && head != 0 && q != p
    ensures 0 < head < |blink| && head < |place| && ListOf(place[head := q], blink, blink[head], p)
  {
    var l: seq<nat> :| IsList(blink, head, l) && Holds(place, l, p);
    assert l[0] in l;
    var place', rest := place[head := q], l[1..];
    forall x | x in rest ensures 0 < x < |place| && place'[x] == p { assert x in l; }
    forall x | 0 < x < |place| && place'[x] == p ensures x in rest { assert x in l; }
    assert IsList(blink, blink[head], rest) && Holds(place', rest, p);
  }

  /** Linking a name in at the front. */
  lemma ListPush(place: seq<Place>, blink: seq<nat>, head: nat, p: Place, n: nat)
    requires ListOf(place, blink, head, p) && 0 < n < |place| == |blink| && place[n] != p
    ensures ListOf(place[n := p], blink[n := head], n, p)
  {
    var l: seq<nat> :| IsList(blink, head, l) && Holds(place, l, p);
    var place', l' := place[n := p], [n] + l;
    ListFrame(blink, head, l, n, head);
    assert l'[1..] == l;
    forall x | x in l' ensures 0 < x < |place| && place'[x] == p { if x != n { assert x in l; } }
    forall x | 0 < x < |place| && place'[x] == p ensures x in l' { if x != n { assert x in l; } }
    assert IsList(blink[n := head], n, l') && Holds(place', l', p);
  }

  /** A name elsewhere may move and have its link changed. */
  lemma ListOther(place: seq<Place>, blink: seq<nat>, head: nat, p: Place, n: nat, q: Place, x: nat)
    requires ListOf(place, blink, head, p) && 0 < n < |place| == |blink| && place[n] != p && q != p
    ensures ListOf(place[n := q], blink[n := x], head, p)
  {
    var l: seq<nat> :| IsList(blink, head, l) && Holds(place, l, p);
    ListFrame(blink, head, l, n, x);
    assert IsList(blink[n := x], head, l) && Holds(place[n := q], l, p);
  }

  /** All names at p go to q. */
  ghost function Moved(place: seq<Place>, p: Place, q: Place): (r: seq<Place>)
    ensures |r| == |place|
  {
    seq(|place|, i requires 0 <= i < |place| => if place[i] == p then q else place[i])
  }

  /** A whole list moves to a place where there was nothing. */
  lemma ListMove(place: seq<Place>, blink: seq<nat>, head: nat, p: Place, q: Place)
    requires ListOf(place, blink, head, p) && p != q
    requires forall n :: 0 < n < |place| ==> place[n] != q
    ensures ListOf(Moved(place, p, q), blink, head, q) && ListOf(Moved(place, p, q), blink, 0, p)
  {
    var l: seq<nat> :| IsList(blink, head, l) && Holds(place, l, p);
    assert Holds(Moved(place, p, q), l, q);
    ListEmpty(Moved(place, p, q), blink, p);
  }

  /** Which does not matter to any other list. */
  lemma ListApart(place: seq<Place>, blink: seq<nat>, head: nat, r: Place, p: Place, q: Place)
    requires ListOf(place, blink, head, r) && r != p && r != q
    ensures ListOf(Moved(place, p, q), blink, head, r)
  {
    var l: seq<nat> :| IsList(blink, head, l) && Holds(place, l, r);
    assert Holds(Moved(place, p, q), l, r);
  }

  // ----- The order of the places -----

  /** What is at p will be written before what is at q. */
  ghost predicate Precedes(p: Place, q: Place) {
    match (p, q)
    case (Written, InBucket(_)) => true
    case (Written, OnStack(_)) => true
    case (InBucket(j), InBucket(k)) => j < k
    case (InBucket(_), OnStack(_)) => true
    case (OnStack(i), OnStack(j)) => i > j
    case _ => false
  }

  /** Names that one entry of depth d may hold together. */
  ghost predicate Together(a: Bytes, b: Bytes, d: nat)
  {
    if d == INFINITY then Same(a, b) else Agree(a, b, d)
  }

  datatype Entry = Entry(depth: nat, head: nat)

  /** The names that take part are sortable. */
  ghost predicate AllSortable(texts: seq<Bytes>, place: seq<Place>)
    requires |place| == |texts|
  {
    forall n :: 0 < n < |texts| && place[n] != Nowhere ==> Sortable(texts[n])
  }

  /** The places are in order: earlier places hold lesser names. */
  ghost predicate InOrder(texts: seq<Bytes>, place: seq<Place>)
    requires |place| == |texts|
  {
    forall m, n :: 0 < m < |texts| && 0 < n < |texts| && Precedes(place[m], place[n])
      ==> Less(texts[m], texts[n])
  }

  /** The names at p belong together at depth d. */
  ghost predicate Group(texts: seq<Bytes>, place: seq<Place>, p: Place, d: nat)
    requires |place| == |texts|
  {
    forall m, n :: 0 < m < |texts| && 0 < n < |texts| && place[m] == p && place[n] == p
      ==> Together(texts[m], texts[n], d)
  }

  /** The depth that `unbucket(d)` gives to the k-th bucket. */
  function NewDepth(k: nat, d: nat): nat {
    if k == 0 then INFINITY else d
  }

  /** Names that agree in d places and stand in the buckets of their next byte. */
  ghost predicate Spread(texts: seq<Bytes>, place: seq<Place>, d: nat)
    requires |place| == |texts|
  {
    && (forall n :: 0 < n < |texts| && place[n].InBucket? ==> place[n].k == At(texts[n], d))
    && (forall m, n :: 0 < m < |texts| && 0 < n < |texts| && place[m].InBucket? && place[n].InBucket?
          ==> Agree(texts[m], texts[n], d))
  }

  lemma SpreadGroups(texts: seq<Bytes>, place: seq<Place>, d: nat, k: nat)
    requires |place| == |texts| && AllSortable(texts, place) && Spread(texts, place, d) && d < INFINITY
    ensures Group(texts, place, InBucket(k), NewDepth(k, d + 1))
  {
    forall m, n | 0 < m < |texts| && 0 < n < |texts| && place[m] == InBucket(k) && place[n] == InBucket(k)
      ensures Together(texts[m], texts[n], NewDepth(k, d + 1))
    {
      if k == 0 {
        EndTogether(texts[m], texts[n], d);
      } else {
        assert At(texts[m], d) > 0;
      }
    }
  }

  /** Spreading the top entry over the empty buckets keeps the order. */
  lemma SpreadInOrder(texts: seq<Bytes>, old_place: seq<Place>, place: seq<Place>, top: nat, d: nat)
    requires |place| == |old_place| == |texts| && AllSortable(texts, place)
    requires InOrder(texts, old_place) && Spread(texts, place, d)
    requires forall n :: 0 < n < |texts| && place[n] != old_place[n] ==> old_place[n] == OnStack(top)
    requires forall n :: 0 < n < |texts| ==>
      (place[n].InBucket? <==> old_place[n] == OnStack(top)) && place[n] != OnStack(top) && !old_place[n].InBucket?
    requires forall n :: 0 < n < |texts| && old_place[n].OnStack? ==> old_place[n].i <= top
    ensures InOrder(texts, place)
  {
    forall m, n | 0 < m < |texts| && 0 < n < |texts| && Precedes(place[m], place[n])
      ensures Less(texts[m], texts[n])
    {
      if place[m].InBucket? && place[n].InBucket? {
        assert Agree(texts[m], texts[n], d) && At(texts[m], d) < At(texts[n], d);
      } else {
        assert Precedes(old_place[m], old_place[n]);
      }
    }
  }

  /** The greatest bucket in use becomes the top entry. */
  lemma MoveInOrder(texts: seq<Bytes>, place: seq<Place>, k: nat, top: nat)
    requires |place| == |texts| && AllSortable(texts, place) && InOrder(texts, place)
    requires forall n :: 0 < n < |texts| && place[n].InBucket? ==> place[n].k <= k
    requires forall n :: 0 < n < |texts| && place[n].OnStack? ==> place[n].i < top
    ensures InOrder(texts, Moved(place, InBucket(k), OnStack(top)))
  {
    var place' := Moved(place, InBucket(k), OnStack(top));
    forall m, n | 0 < m < |texts| && 0 < n < |texts| && Precedes(place'[m], place'[n])
      ensures Less(texts[m], texts[n])
    {
      assert Precedes(place[m], place[n]);
    }
  }

  /** What has been written is in order. */
  ghost predicate Sorted(texts: seq<Bytes>, out: seq<nat>) {
    && (forall i :: 0 <= i < |out| ==> 0 < out[i] < |texts|)
    && (forall i, j :: 0 <= i < j < |out| ==> Less(texts[out[i]], texts[out[j]]) || Same(texts[out[i]], texts[out[j]]))
  }

  lemma LessMiddle(a: Bytes, b: Bytes, c: Bytes)
    requires Less(a, b) && (Less(b, c) || Same(b, c))
    ensures !Same(a, c)
  {
    var i: nat :| Agree(a, b, i) && At(a, i) < At(b, i);
    if Less(b, c) {
      var j: nat :| Agree(b, c, j) && At(b, j) < At(c, j);
      var k := if i < j then i else j;
      assert At(a, k) < At(c, k);
    } else {
      assert At(b, i) == At(c, i);
    }
  }

  /** In a sorted index the names that are the same up to case form one group. */
  lemma GroupsContiguous(texts: seq<Bytes>, out: seq<nat>, i: nat, j: nat, k: nat)
    requires Sorted(texts, out) && i < j < k < |out| && Same(texts[out[i]], texts[out[k]])
    ensures Same(texts[out[i]], texts[out[j]])
  {
    if Less(texts[out[i]], texts[out[j]]) {
      LessMiddle(texts[out[i]], texts[out[j]], texts[out[k]]);
    }
  }

  // ----- All the lists -----

  ghost function Head(bucket: seq<nat>, stack: seq<Entry>, rest: nat, p: Place): nat
    requires |bucket| == 256
  {
    match p
    case InRest => rest
    case InBucket(k) => if k < RANKS then bucket[Collate(k)] else 0
    case OnStack(i) => if i < |stack| then stack[i].head else 0
    case _ => 0
  }

  ghost predicate HasList(p: Place) {
    p.InRest? || p.InBucket? || p.OnStack?
  }

  /** Every place has its list, and so the lists share no name. */
  ghost predicate Linked(place: seq<Place>, blink: seq<nat>, bucket: seq<nat>, stack: seq<Entry>, rest: nat) {
    && |bucket| == 256 && |blink| == |place|
    && forall p :: HasList(p) ==> ListOf(place, blink, Head(bucket, stack, rest, p), p)
  }

  lemma PutInLinked(place: seq<Place>, blink: seq<nat>, bucket: seq<nat>, stack: seq<Entry>, rest: nat, n: nat, k: nat)
    requires Linked(place, blink, bucket, stack, rest) && k < RANKS
    requires 0 < n < |place| && place[n] == Nowhere
    ensures Linked(place[n := InBucket(k)], blink[n := bucket[Collate(k)]], bucket[Collate(k) := n], stack, rest)
  {
    hide ListOf;
    var c := Collate(k);
    var place', blink', bucket' := place[n := InBucket(k)], blink[n := bucket[c]], bucket[c := n];
    forall p | HasList(p) ensures ListOf(place', blink', Head(bucket', stack, rest, p), p) {
      var h := Head(bucket, stack, rest, p);
      assert ListOf(place, blink, h, p);
      if p == InBucket(k) {
        ListPush(place, blink, h, p, n);
      } else {
        if p.InBucket? && p.k < RANKS && Collate(p.k) == c { CollateInjective(p.k, k); }
        ListOther(place, blink, h, p, n, InBucket(k), bucket[c]);
      }
    }
  }

  lemma TakeLinked(place: seq<Place>, blink: seq<nat>, bucket: seq<nat>, stack: seq<Entry>, rest: nat, q: Place)
    requires Linked(place, blink, bucket, stack, rest) && rest != 0 && !HasList(q)
    ensures 0 < rest < |place| && place[rest] == InRest
    ensures Linked(place[rest := q], blink, bucket, stack, blink[rest])
  {
    hide ListOf;
    assert Head(bucket, stack, rest, InRest) == rest;
    ListHead(place, blink, rest, InRest);
    ListPop(place, blink, rest, InRest, q);
    forall p | HasList(p) ensures ListOf(place[rest := q], blink, Head(bucket, stack, blink[rest], p), p) {
      var h := Head(bucket, stack, rest, p);
      assert ListOf(place, blink, h, p);
      if p != InRest {
        ListOther(place, blink, h, p, rest, q, blink[rest]);
        assert blink[rest := blink[rest]] == blink;
      }
    }
  }

  lemma PopLinked(place: seq<Place>, blink: seq<nat>, bucket: seq<nat>, stack: seq<Entry>)
    requires Linked(place, blink, bucket, stack, 0) && stack != []
    ensures var top := |stack| - 1;
      Linked(Moved(place, OnStack(top), InRest), blink, bucket, stack[..top], stack[top].head)
  {
    hide ListOf, Moved;
    var top := |stack| - 1;
    var from := OnStack(top);
    var place', stack' := Moved(place, from, InRest), stack[..top];
    assert ListOf(place, blink, Head(bucket, stack, 0, InRest), InRest);
    ListNull(place, blink, InRest);
    assert ListOf(place, blink, Head(bucket, stack, 0, from), from);
    ListMove(place, blink, stack[top].head, from, InRest);
    forall p | HasList(p) ensures ListOf(place', blink, Head(bucket, stack', stack[top].head, p), p) {
      if p != from && p != InRest {
        var h := Head(bucket, stack, 0, p);
        assert ListOf(place, blink, h, p);
        ListApart(place, blink, h, p, from, InRest);
        assert h == Head(bucket, stack', stack[top].head, p);
      }
    }
  }

  lemma PushLinked(place: seq<Place>, blink: seq<nat>, bucket: seq<nat>, stack: seq<Entry>, rest: nat, k: nat, d: nat)
    requires Linked(place, blink, bucket, stack, rest) && k < RANKS
    ensures Linked(Moved(place, InBucket(k), OnStack(|stack|)), blink, bucket[Collate(k) := 0],
                   stack + [Entry(d, bucket[Collate(k)])], rest)
  {
    hide ListOf, Moved;
    var c := Collate(k);
    var from, to := InBucket(k), OnStack(|stack|);
    var place', bucket', stack' := Moved(place, from, to), bucket[c := 0], stack + [Entry(d, bucket[c])];
    assert ListOf(place, blink, Head(bucket, stack, rest, to), to);
    ListNull(place, blink, to);
    assert ListOf(place, blink, Head(bucket, stack, rest, from), from);
    ListMove(place, blink, bucket[c], from, to);
    forall p | HasList(p) ensures ListOf(place', blink, Head(bucket', stack', rest, p), p) {
      if p != from && p != to {
        var h := Head(bucket, stack, rest, p);
        assert ListOf(place, blink, h, p);
        ListApart(place, blink, h, p, from, to);
        if p.InBucket? && p.k < RANKS && Collate(p.k) == c { CollateInjective(p.k, k); }
        assert h == Head(bucket', stack', rest, p);
      }
    }
  }

  /** Where nothing hangs there is no name. */
  lemma NoneAt(place: seq<Place>, blink: seq<nat>, bucket: seq<nat>, stack: seq<Entry>, rest: nat, p: Place)
    requires Linked(place, blink, bucket, stack, rest) && HasList(p) && Head(bucket, stack, rest, p) == 0
    ensures forall n :: 0 < n < |place| ==> place[n] != p
  {
    hide ListOf;
    assert ListOf(place, blink, Head(bucket, stack, rest, p), p);
    ListNull(place, blink, p);
  }

  lemma InBounds(place: seq<Place>, blink: seq<nat>, bucket: seq<nat>, stack: seq<Entry>, rest: nat)
    requires Linked(place, blink, bucket, stack, rest)
    ensures forall n :: 0 < n < |place| && place[n].InBucket? ==> place[n].k < RANKS
    ensures forall n :: 0 < n < |place| && place[n].OnStack? ==> place[n].i < |stack|
  {
    hide ListOf;
    forall n | 0 < n < |place| && HasList(place[n]) ensures Head(bucket, stack, rest, place[n]) != 0 {
      if Head(bucket, stack, rest, place[n]) == 0 {
        NoneAt(place, blink, bucket, stack, rest, place[n]);
      }
    }
  }

  // ----- Termination -----

  /** The depth a name has reached. */
  ghost function Level(stack: seq<Entry>, p: Place): nat {
    match p
    case OnStack(i) => if i < |stack| && stack[i].depth <= INFINITY then stack[i].depth else 0
    case _ => INFINITY + 1
  }

  ghost function Total(stack: seq<Entry>, place: seq<Place>, n: nat): int
    requires n <= |place|
  {
    if n <= 1 then 0 else Total(stack, place, n - 1) + INFINITY + 1 - Level(stack, place[n - 1])
  }

  lemma {:induction false} TotalDrops(stack: seq<Entry>, place: seq<Place>, stack': seq<Entry>, place': seq<Place>, n: nat, m: nat)
    requires n <= |place| == |place'|
    requires forall i :: 0 < i < n ==> Level(stack, place[i]) <= Level(stack', place'[i])
    requires 0 < m < n ==> Level(stack, place[m]) < Level(stack', place'[m])
    ensures 0 <= Total(stack', place', n) <= Total(stack, place, n)
    ensures 0 < m < n ==> Total(stack', place', n) < Total(stack, place, n)
  {
    if n > 1 {
      TotalDrops(stack, place, stack', place', n - 1, m);
    }
  }

  // ----- What is written -----

  lemma HoldsAppend(place: seq<Place>, out: seq<nat>, n: nat)
    requires Holds(place, out, Written) && 0 < n < |place| && place[n] != Written
    ensures Holds(place[n := Written], out + [n], Written)
  {
    var place', out' := place[n := Written], out + [n];
    forall x | x in out' ensures 0 < x < |place| && place'[x] == Written { if x != n { assert x in out; } }
    forall x | 0 < x < |place| && place'[x] == Written ensures x in out' { if x != n { assert x in out; } }
  }

  lemma SortedAppend(texts: seq<Bytes>, out: seq<nat>, n: nat)
    requires Sorted(texts, out) && 0 < n < |texts|
    requires forall m :: m in out ==> Less(texts[m], texts[n]) || Same(texts[m], texts[n])
    ensures Sorted(texts, out + [n])
  {
    forall i | 0 <= i < |out| ensures out[i] in out { }
  }

  // ----- The sort -----

  /** The entries of the stack are groups, and everything is where the order wants it. */
  ghost predicate Arranged(texts: seq<Bytes>, place: seq<Place>, stack: seq<Entry>, out: seq<nat>)
    requires |place| == |texts|
  {
    && AllSortable(texts, place) && InOrder(texts, place)
    && Holds(place, out, Written) && Sorted(texts, out)
    && (forall i :: 0 <= i < |stack| ==>
          stack[i].depth <= INFINITY && stack[i].head != 0 && Group(texts, place, OnStack(i), stack[i].depth))
  }

  ghost predicate NoBuckets(place: seq<Place>) {
    forall n :: 0 < n < |place| ==> !place[n].InBucket? && place[n] != InRest
  }

  /** `unbucket` has moved some names from their buckets to new entries of the right depth. */
  ghost predicate Unbucketed(place: seq<Place>, place': seq<Place>, stack: seq<Entry>, stack': seq<Entry>, d: nat)
    requires |place| == |place'|
  {
    && |stack| <= |stack'| && stack'[..|stack|] == stack
    && (forall n :: 0 < n < |place| ==>
          || place'[n] == place[n]
          || (place[n].InBucket? && place'[n].OnStack? && |stack| <= place'[n].i < |stack'|
              && stack'[place'[n].i].depth == NewDepth(place[n].k, d)))
  }

  lemma UnbucketOne(texts: seq<Bytes>, place: seq<Place>, stack: seq<Entry>, out: seq<nat>, k: nat, d: nat, head: nat)
    requires |place| == |texts| && Arranged(texts, place, stack, out)
    requires forall j: nat :: Group(texts, place, InBucket(j), NewDepth(j, d))
    requires forall n :: 0 < n < |texts| && place[n].InBucket? ==> place[n].k <= k
    requires forall n :: 0 < n < |texts| && place[n].OnStack? ==> place[n].i < |stack|
    requires head != 0 && d <= INFINITY
    ensures var place' := Moved(place, InBucket(k), OnStack(|stack|));
      && Arranged(texts, place', stack + [Entry(NewDepth(k, d), head)], out)
      && (forall j: nat :: Group(texts, place', InBucket(j), NewDepth(j, d)))
  {
    hide Less, Together, Sorted;
    var place' := Moved(place, InBucket(k), OnStack(|stack|));
    var stack' := stack + [Entry(NewDepth(k, d), head)];
    MoveInOrder(texts, place, k, |stack|);
    forall i | 0 <= i < |stack'| ensures Group(texts, place', OnStack(i), stack'[i].depth) {
      if i < |stack| {
        assert Group(texts, place, OnStack(i), stack[i].depth);
      } else {
        assert Group(texts, place, InBucket(k), NewDepth(k, d));
      }
    }
    forall j: nat ensures Group(texts, place', InBucket(j), NewDepth(j, d)) {
      assert Group(texts, place, InBucket(j), NewDepth(j, d));
    }
  }

  lemma UnbucketedMore(place0: seq<Place>, place: seq<Place>, stack0: seq<Entry>, stack: seq<Entry>, d: nat, k: nat, head: nat)
    requires |place0| == |place| && Unbucketed(place0, place, stack0, stack, d)
    requires forall n :: 0 < n < |place| && place[n].InBucket? ==> place[n].k <= k
    ensures var place' := Moved(place, InBucket(k), OnStack(|stack|));
      && Unbucketed(place0, place', stack0, stack + [Entry(NewDepth(k, d), head)], d)
      && (forall n :: 0 < n < |place| && place'[n].InBucket? ==> place'[n].k < k)
  {
  }

  // ----- Writing an entry -----

  /** Some of the names of entry top have been written, and the others are in the rest. */
  ghost predicate Writing(texts: seq<Bytes>, place0: seq<Place>, place: seq<Place>, top: nat, out: seq<nat>)
    requires |place0| == |texts|
  {
    && |place| == |place0| && AllSortable(texts, place0) && InOrder(texts, place0)
    && (forall n :: 0 < n < |place| ==>
          if place0[n] == OnStack(top) then place[n] == InRest || place[n] == Written else place[n] == place0[n])
    && (forall m, n :: 0 < m < |place| && 0 < n < |place| && place0[m] == OnStack(top) && place0[n] == OnStack(top)
          ==> Same(texts[m], texts[n]))
    && Holds(place, out, Written) && Sorted(texts, out)
  }

  /** An entry of infinite depth, or of one name, holds one folded name. */
  lemma TopSame(texts: seq<Bytes>, place: seq<Place>, blink: seq<nat>, bucket: seq<nat>, stack: seq<Entry>, out: seq<nat>)
    requires |place| == |texts| && Arranged(texts, place, stack, out) && stack != []
    requires Linked(place, blink, bucket, stack, 0) && stack[|stack| - 1].head < |blink|
    requires stack[|stack| - 1].depth == INFINITY || blink[stack[|stack| - 1].head] == 0
    ensures Group(texts, place, OnStack(|stack| - 1), INFINITY)
  {
    hide ListOf, Less;
    var e, p := stack[|stack| - 1], OnStack(|stack| - 1);
    if e.depth != INFINITY {
      assert ListOf(place, blink, Head(bucket, stack, 0, p), p);
      ListPop(place, blink, e.head, p, Nowhere);
      ListNull(place[e.head := Nowhere], blink, p);
      var without := place[e.head := Nowhere];
      assert forall n :: 0 < n < |place| && n != e.head ==> without[n] == place[n];
    }
  }

  lemma WriteStart(texts: seq<Bytes>, place0: seq<Place>, stack: seq<Entry>, out: seq<nat>)
    requires |place0| == |texts| && Arranged(texts, place0, stack, out) && stack != []
    requires Group(texts, place0, OnStack(|stack| - 1), INFINITY)
    ensures Writing(texts, place0, Moved(place0, OnStack(|stack| - 1), InRest), |stack| - 1, out)
  {
    hide Less, Same, Sorted, InOrder;
  }

  lemma WriteOne(texts: seq<Bytes>, place0: seq<Place>, place: seq<Place>, top: nat, out: seq<nat>, n: nat)
    requires |place0| == |texts| && Writing(texts, place0, place, top, out)
    requires 0 < n < |place| && place[n] == InRest && place0[n] == OnStack(top)
    ensures Writing(texts, place0, place[n := Written], top, out + [n])
  {
    hide Less, Same, Sorted;
    HoldsAppend(place, out, n);
    forall m | m in out ensures 0 < m < |texts| && (Less(texts[m], texts[n]) || Same(texts[m], texts[n])) {
      assert place[m] == Written;
      if place0[m] != OnStack(top) {
        assert Precedes(place0[m], place0[n]);
      }
    }
    SortedAppend(texts, out, n);
  }

  lemma WriteDone(texts: seq<Bytes>, place0: seq<Place>, place: seq<Place>, stack: seq<Entry>, out0: seq<nat>, out: seq<nat>)
    requires |place0| == |texts| && Arranged(texts, place0, stack, out0) && stack != [] && NoBuckets(place0)
    requires Writing(texts, place0, place, |stack| - 1, out)
    requires forall n :: 0 < n < |place| ==> place[n] != InRest
    requires forall n :: 0 < n < |place| && place0[n].OnStack? ==> place0[n].i < |stack|
    ensures Arranged(texts, place, stack[..|stack| - 1], out) && NoBuckets(place)
  {
    hide Less, Same, Sorted, Holds, Together;
    var stack' := stack[..|stack| - 1];
    forall m, n | 0 < m < |texts| && 0 < n < |texts| && Precedes(place[m], place[n])
      ensures Less(texts[m], texts[n])
    {
      assert Precedes(place0[m], place0[n]);
    }
    forall i | 0 <= i < |stack'| ensures Group(texts, place, OnStack(i), stack'[i].depth) {
      assert Group(texts, place0, OnStack(i), stack[i].depth);
    }
  }

  /** How many names are in the rest, among the first n. */
  ghost function Left(place: seq<Place>, n: nat): nat
    requires n <= |place|
  {
    if n == 0 then 0 else Left(place, n - 1) + if place[n - 1] == InRest then 1 else 0
  }

  lemma {:induction false} LeftDrops(place: seq<Place>, m: nat, n: nat, q: Place)
    requires m < |place| && n <= |place| && place[m] == InRest && q != InRest
    ensures Left(place[m := q], n) == Left(place, n) - if m < n then 1 else 0
  {
    if n > 0 {
      LeftDrops(place, m, n - 1, q);
    }
  }

  // ----- Spreading an entry -----

  /** Some of the names of entry top are in the buckets of their byte at depth d, and the others are in the rest. */
  ghost predicate Spreading(texts: seq<Bytes>, place0: seq<Place>, place: seq<Place>, top: nat, d: nat)
    requires |place0| == |texts|
  {
    && |place| == |place0|
    && (forall n :: 0 < n < |place| ==>
          if place0[n] == OnStack(top) then place[n] == InRest || place[n] == InBucket(At(texts[n], d))
          else place[n] == place0[n])
  }

  lemma ArrangedSortable(texts: seq<Bytes>, place: seq<Place>, stack: seq<Entry>, out: seq<nat>)
    requires |place| == |texts| && Arranged(texts, place, stack, out)
    ensures AllSortable(texts, place)
  {
  }

  lemma SpreadDone(texts: seq<Bytes>, place0: seq<Place>, place: seq<Place>, stack: seq<Entry>, out: seq<nat>)
    requires |place0| == |texts| && Arranged(texts, place0, stack, out) && stack != [] && NoBuckets(place0)
    requires forall n :: 0 < n < |place0| && place0[n].OnStack? ==> place0[n].i < |stack|
    requires stack[|stack| - 1].depth < INFINITY
    requires Spreading(texts, place0, place, |stack| - 1, stack[|stack| - 1].depth)
    requires forall n :: 0 < n < |place| ==> place[n] != InRest
    ensures Arranged(texts, place, stack[..|stack| - 1], out)
    ensures forall k: nat :: Group(texts, place, InBucket(k), NewDepth(k, stack[|stack| - 1].depth + 1))
  {
    hide Less, Same, Agree, Sorted, InOrder;
    var top, d := |stack| - 1, stack[|stack| - 1].depth;
    assert Group(texts, place0, OnStack(top), d);
    assert Spread(texts, place, d);
    SpreadInOrder(texts, place0, place, top, d);
    forall i | 0 <= i < top ensures Group(texts, place, OnStack(i), stack[i].depth) {
      assert Group(texts, place0, OnStack(i), stack[i].depth);
    }
    forall k: nat ensures Group(texts, place, InBucket(k), NewDepth(k, d + 1)) {
      SpreadGroups(texts, place, d, k);
    }
  }

  // ----- The whole sort -----

  /** The names on the hash lists; those with references can be sorted. */
  ghost predicate Listed(texts: seq<Bytes>, names: seq<nat>, cited: seq<bool>) {
    && |cited| == |texts|
    && (forall n :: n in names ==> 0 < n < |texts| && (cited[n] ==> Sortable(texts[n])))
  }

  lemma StartLinked(place: seq<Place>, blink: seq<nat>, bucket: seq<nat>)
    requires |blink| == |place| && |bucket| == 256 && forall i :: 0 <= i < 256 ==> bucket[i] == 0
    requires forall n :: 0 <= n < |place| ==> place[n] == Nowhere
    ensures Linked(place, blink, bucket, [], 0)
  {
    forall p | HasList(p) ensures ListOf(place, blink, Head(bucket, [], 0, p), p) {
      ListEmpty(place, blink, p);
    }
  }

  lemma FirstArranged(texts: seq<Bytes>, place: seq<Place>)
    requires |place| == |texts| && AllSortable(texts, place)
    requires forall n :: 0 < n < |texts| ==> place[n] == Nowhere || place[n] == InBucket(At(texts[n], 0))
    ensures Arranged(texts, place, [], [])
    ensures forall k: nat :: Group(texts, place, InBucket(k), NewDepth(k, 1))
  {
    forall m, n | 0 < m < |texts| && 0 < n < |texts| && Precedes(place[m], place[n])
      ensures Less(texts[m], texts[n])
    {
      assert Agree(texts[m], texts[n], 0);
    }
    forall k: nat ensures Group(texts, place, InBucket(k), NewDepth(k, 1)) {
      SpreadGroups(texts, place, 0, k);
    }
  }

  lemma TopHead(texts: seq<Bytes>, place: seq<Place>, blink: seq<nat>, bucket: seq<nat>, stack: seq<Entry>, out: seq<nat>)
    requires |place| == |texts| && Arranged(texts, place, stack, out) && stack != []
    requires Linked(place, blink, bucket, stack, 0)
    ensures var e := stack[|stack| - 1];
      e.depth <= INFINITY && 0 < e.head < |texts| && place[e.head] == OnStack(|stack| - 1)
  {
    hide ListOf;
    var p := OnStack(|stack| - 1);
    assert ListOf(place, blink, Head(bucket, stack, 0, p), p);
    ListHead(place, blink, stack[|stack| - 1].head, p);
  }

  /** Writing raises the level of what is written and of nothing else. */
  lemma WriteLevels(place0: seq<Place>, place: seq<Place>, stack: seq<Entry>)
    requires |place| == |place0| && stack != []
    requires forall n :: 0 < n < |place| ==>
      place[n] == if place0[n] == OnStack(|stack| - 1) then Written else place0[n]
    requires forall n :: 0 < n < |place| && place0[n].OnStack? ==> place0[n].i < |stack|
    ensures forall n :: 0 < n < |place| ==>
      && Level(stack, place0[n]) <= Level(stack[..|stack| - 1], place[n])
      && (place0[n] == OnStack(|stack| - 1) ==> Level(stack, place0[n]) < Level(stack[..|stack| - 1], place[n]))
  {
  }

  lemma SpreadLevels(place0: seq<Place>, place1: seq<Place>, place: seq<Place>, stack0: seq<Entry>, stack: seq<Entry>)
    requires |place| == |place1| == |place0| && stack0 != []
    requires var top := |stack0| - 1;
      && stack0[top].depth < INFINITY
      && (forall n :: 0 < n < |place| ==>
            if place0[n] == OnStack(top) then place1[n].InBucket? else place1[n] == place0[n] && !place0[n].InBucket?)
      && Unbucketed(place1, place, stack0[..top], stack, stack0[top].depth + 1)
    requires forall n :: 0 < n < |place| && place0[n].OnStack? ==> place0[n].i < |stack0|
    requires NoBuckets(place)
    ensures forall n :: 0 < n < |place| ==>
      && Level(stack0, place0[n]) <= Level(stack, place[n])
      && (place0[n] == OnStack(|stack0| - 1) ==> Level(stack0, place0[n]) < Level(stack, place[n]))
  {
    var top := |stack0| - 1;
    forall n | 0 < n < |place|
      ensures Level(stack0, place0[n]) <= Level(stack, place[n])
      ensures place0[n] == OnStack(top) ==> Level(stack0, place0[n]) < Level(stack, place[n])
    {
      if place0[n].OnStack? && place0[n] != OnStack(top) {
        assert stack[place0[n].i] == stack[..top][place0[n].i] == stack0[place0[n].i];
      }
    }
  }

  lemma Finished(texts: seq<Bytes>, place: seq<Place>, blink: seq<nat>, bucket: seq<nat>, out: seq<nat>)
    requires |place| == |texts| && Arranged(texts, place, [], out) && NoBuckets(place)
    requires Linked(place, blink, bucket, [], 0)
    ensures NoDup(out) && Sorted(texts, out)
    ensures forall n: nat :: n in out <==> 0 < n < |place| && place[n] != Nowhere
  {
    InBounds(place, blink, bucket, [], 0);
  }

  class Sorter {
    const texts: seq<Bytes>      // the names of name_dir; name 0 is not used
    const bucket: array<nat>
    const blink: array<nat>
    var stack: seq<Entry>        // scrap_info, used for sorting
    var out: seq<nat>            // the names written to the index, in order
    ghost var place: seq<Place>

    ghost predicate Valid()
      reads this, bucket, blink
    {
      && bucket != blink && bucket.Length == 256 && blink.Length == |texts| == |place|
    }

    constructor (texts: seq<Bytes>)
      ensures Valid() && this.texts == texts && stack == [] && out == []
      ensures fresh(bucket) && fresh(blink)
      ensures forall n :: 0 <= n < |texts| ==> place[n] == Nowhere
    {
      this.texts := texts;
      bucket := new nat[256];
      blink := new nat[|texts|];
      stack, out := [], [];
      place := seq(|texts|, i => Nowhere);
    }

    /** The bucket of a name for its byte at depth d (cweb/cweave.c:4090-4095). */
    method CharAt(n: nat, d: nat) returns (c: nat)
      requires n < |texts| && Sortable(texts[n])
      ensures c == Collate(At(texts[n], d))
    {
      if d >= |texts[n]| {
        c := 0;
      } else {
        c := texts[n][d];
        if 65 <= c <= 90 { c := c + 32; }
      }
    }

    /** Links a name in at the front of its bucket. */
    method PutIn(n: nat, c: nat, ghost k: nat, ghost rest: nat)
      requires Valid() && Linked(place, blink[..], bucket[..], stack, rest)
      requires 0 < n < |texts| && place[n] == Nowhere && k < RANKS && c == Collate(k)
      modifies bucket, blink, this`place
      ensures Valid() && Linked(place, blink[..], bucket[..], stack, rest)
      ensures place == old(place)[n := InBucket(k)]
      ensures blink[..] == old(blink[..])[n := old(bucket[c])]
    {
      hide Linked;
      PutInLinked(place, blink[..], bucket[..], stack, rest, n, k);
      ghost var was: seq<nat>, were: seq<nat> := blink[..], bucket[..];
      blink[n] := bucket[c];
      bucket[c] := n;
      assert blink[..] == was[n := were[c]] && bucket[..] == were[c := n];
      place := place[n := InBucket(k)];
    }

    /** `unbucket`: the buckets in use become entries, the first on top. */
    method Unbucket(d: nat)
      requires Valid() && Linked(place, blink[..], bucket[..], stack, 0) && d <= INFINITY
      requires Arranged(texts, place, stack, out)
      requires forall j: nat :: Group(texts, place, InBucket(j), NewDepth(j, d))
      modifies this`stack, this`place, bucket
      ensures Valid() && Linked(place, blink[..], bucket[..], stack, 0)
      ensures Arranged(texts, place, stack, out) && NoBuckets(place)
      ensures Unbucketed(old(place), place, old(stack), stack, d)
    {
      hide Linked, Arranged, Group, Moved;
      var c: nat := RANKS;
      InBounds(place, blink[..], bucket[..], stack, 0);
      while c > 0
        invariant c <= RANKS
        invariant Valid() && Linked(place, blink[..], bucket[..], stack, 0)
        invariant Arranged(texts, place, stack, out)
        invariant forall j: nat :: Group(texts, place, InBucket(j), NewDepth(j, d))
        invariant forall n :: 0 < n < |texts| && place[n].InBucket? ==> place[n].k < c
        invariant Unbucketed(old(place), place, old(stack), stack, d)
      {
        c := c - 1;
        var head := bucket[Collate(c)];
        if head != 0 {
          InBounds(place, blink[..], bucket[..], stack, 0);
          UnbucketOne(texts, place, stack, out, c, d, head);
          UnbucketedMore(old(place), place, old(stack), stack, d, c, head);
          PushLinked(place, blink[..], bucket[..], stack, 0, c, NewDepth(c, d));
          var depth := if c == 0 then INFINITY else d;
          ghost var were: seq<nat> := bucket[..];
          bucket[Collate(c)] := 0;
          assert bucket[..] == were[Collate(c) := 0];
          place := Moved(place, InBucket(c), OnStack(|stack|));
          stack := stack + [Entry(depth, head)];
        } else {
          NoneAt(place, blink[..], bucket[..], stack, 0, InBucket(c));
        }
      }
      NoneAt(place, blink[..], bucket[..], stack, 0, InRest);
    }

    /** Writes the names of the top entry, which are the same up to case (cweb/cweave.c:4008-4078). */
    method WriteTop()
      requires Valid() && Linked(place, blink[..], bucket[..], stack, 0) && stack != []
      requires Arranged(texts, place, stack, out) && NoBuckets(place)
      requires blink.Length > stack[|stack| - 1].head
      requires stack[|stack| - 1].depth == INFINITY || blink[stack[|stack| - 1].head] == 0
      modifies this`stack, this`place, this`out
      ensures Valid() && Linked(place, blink[..], bucket[..], stack, 0)
      ensures Arranged(texts, place, stack, out) && NoBuckets(place)
      ensures stack == old(stack[..|stack| - 1])
      ensures forall n :: 0 < n < |place| ==>
        place[n] == if old(place)[n] == OnStack(|stack|) then Written else old(place)[n]
    {
      hide Linked, Arranged, InOrder, Less, Same, Sorted, Holds;
      ghost var top := |stack| - 1;
      ghost var place0, out0 := place, out;
      var cur := stack[|stack| - 1].head;
      InBounds(place, blink[..], bucket[..], stack, 0);
      TopSame(texts, place, blink[..], bucket[..], stack, out);
      PopLinked(place, blink[..], bucket[..], stack);
      place := Moved(place, OnStack(top), InRest);
      WriteStart(texts, place0, stack, out);
      while cur != 0
        invariant Valid() && Linked(place, blink[..], bucket[..], stack[..top], cur)
        invariant Writing(texts, place0, place, top, out)
        decreases Left(place, |place|)
        modifies this`place, this`out
      {
        TakeLinked(place, blink[..], bucket[..], stack[..top], cur, Written);
        WriteOne(texts, place0, place, top, out, cur);
        LeftDrops(place, cur, |place|, Written);
        out := out + [cur];
        place := place[cur := Written];
        cur := blink[cur];
      }
      NoneAt(place, blink[..], bucket[..], stack[..top], 0, InRest);
      WriteDone(texts, place0, place, stack, out0, out);
      stack := stack[..|stack| - 1];
    }

    /** Spreads the names of the top entry over the buckets of their next byte (cweb/cweave.c:4085-4099). */
    method SpreadTop()
      requires Valid() && Linked(place, blink[..], bucket[..], stack, 0) && stack != []
      requires Arranged(texts, place, stack, out) && NoBuckets(place)
      requires stack[|stack| - 1].depth < INFINITY
      modifies this`stack, this`place, bucket, blink
      ensures Valid() && Linked(place, blink[..], bucket[..], stack, 0)
      ensures stack == old(stack[..|stack| - 1]) && Arranged(texts, place, stack, out)
      ensures forall n :: 0 < n < |place| ==>
        if old(place)[n] == OnStack(|stack|) then place[n].InBucket? else place[n] == old(place)[n]
      ensures forall k: nat :: Group(texts, place, InBucket(k), NewDepth(k, old(stack[|stack| - 1].depth) + 1))
    {
      hide Linked, Arranged, InOrder, Holds, Less, Together, Group, Precedes, Left, NewDepth, Sorted, Sortable;
      ghost var top := |stack| - 1;
      ghost var place0, stack0 := place, stack;
      var depth := stack[|stack| - 1].depth;
      var next := stack[|stack| - 1].head;
      InBounds(place, blink[..], bucket[..], stack, 0);
      PopLinked(place, blink[..], bucket[..], stack);
      place := Moved(place, OnStack(top), InRest);
      stack := stack[..|stack| - 1];
      while next != 0
        invariant Valid() && Linked(place, blink[..], bucket[..], stack, next)
        invariant Spreading(texts, place0, place, top, depth)
        decreases Left(place, |place|)
        modifies this`place, bucket, blink
      {
        var cur := next;
        TakeLinked(place, blink[..], bucket[..], stack, cur, Nowhere);
        LeftDrops(place, cur, |place|, InBucket(At(texts[cur], depth)));
        next := blink[cur];
        ghost var was := place;
        place := place[cur := Nowhere];
        ArrangedSortable(texts, place0, stack0, out);
        var c := CharAt(cur, depth);
        PutIn(cur, c, At(texts[cur], depth), next);
        assert place == was[cur := InBucket(At(texts[cur], depth))];
      }
      NoneAt(place, blink[..], bucket[..], stack, 0, InRest);
      SpreadDone(texts, place0, place, stack0, out);
    }

    /** The first pass: every name with references goes to the bucket of its first byte (cweb/cweave.c:3980-3994). */
    method FirstPass(names: seq<nat>, cited: seq<bool>)
      requires Valid() && stack == [] && Linked(place, blink[..], bucket[..], stack, 0)
      requires Listed(texts, names, cited) && NoDup(names)
      requires forall n :: 0 <= n < |texts| ==> place[n] == Nowhere
      modifies this`place, bucket, blink
      ensures Valid() && Linked(place, blink[..], bucket[..], stack, 0)
      ensures forall n :: 0 < n < |texts| ==>
        place[n] == if n in names && cited[n] then InBucket(At(texts[n], 0)) else Nowhere
    {
      hide Linked, Sortable;
      for i := 0 to |names|
        invariant Valid() && Linked(place, blink[..], bucket[..], stack, 0)
        invariant forall n :: 0 < n < |texts| ==>
          place[n] == if n in names[..i] && cited[n] then InBucket(At(texts[n], 0)) else Nowhere
      {
        var cur := names[i];
        assert cur in names && cur !in names[..i];
        if cited[cur] {
          var c := CharAt(cur, 0);
          PutIn(cur, c, At(texts[cur], 0), 0);
        }
        assert names[..i + 1] == names[..i] + [cur];
      }
      assert names[..|names|] == names;
    }

    /** One turn of the main loop: the top entry is written or split. */
    method Turn()
      requires Valid() && Linked(place, blink[..], bucket[..], stack, 0) && stack != []
      requires Arranged(texts, place, stack, out) && NoBuckets(place)
      modifies this, bucket, blink
      ensures Valid() && Linked(place, blink[..], bucket[..], stack, 0)
      ensures Arranged(texts, place, stack, out) && NoBuckets(place)
      ensures forall n :: 0 < n < |texts| ==> (place[n] == Nowhere <==> old(place)[n] == Nowhere)
      ensures 0 <= Total(stack, place, |place|) < old(Total(stack, place, |place|))
    {
      hide Linked, Arranged, Level, Group, Total;
      ghost var stack0, place0 := stack, place;
      TopHead(texts, place, blink[..], bucket[..], stack, out);
      InBounds(place, blink[..], bucket[..], stack, 0);
      var e := stack[|stack| - 1];
      if blink[e.head] == 0 || e.depth == INFINITY {
        WriteTop();
        WriteLevels(place0, place, stack0);
      } else {
        SpreadTop();
        ghost var place1 := place;
        Unbucket(e.depth + 1);
        SpreadLevels(place0, place1, place, stack0, stack);
      }
      TotalDrops(stack0, place0, stack, place, |place|, e.head);
    }

    /** The sort of the index, given the identifiers in the order of the hash lists. */
    method Sort(names: seq<nat>, cited: seq<bool>)
      requires Valid() && stack == [] && out == []
      requires Listed(texts, names, cited) && NoDup(names)
      requires forall n :: 0 <= n < |texts| ==> place[n] == Nowhere
      modifies this, bucket, blink
      ensures NoDup(out) && (forall n: nat :: n in out <==> n in names && cited[n])
      ensures Sorted(texts, out)
      ensures forall i, j :: 0 <= i < j < |out| ==>
        Earlier(texts[out[i]], texts[out[j]]) || EqualSmall(texts[out[i]], texts[out[j]])
    {
      hide Linked, Arranged, Group, Sorted, Sortable, Total, Earlier, EqualSmall;
      for c := 0 to 256
        invariant forall i :: 0 <= i < c ==> bucket[i] == 0
        modifies bucket
      {
        bucket[c] := 0;
      }
      StartLinked(place, blink[..], bucket[..]);
      FirstPass(names, cited);
      FirstArranged(texts, place);
      Unbucket(1);
      while stack != []
        invariant Valid() && Linked(place, blink[..], bucket[..], stack, 0)
        invariant Arranged(texts, place, stack, out) && NoBuckets(place)
        invariant forall n :: 0 < n < |texts| ==> (place[n] != Nowhere <==> n in names && cited[n])
        decreases Total(stack, place, |place|)
      {
        Turn();
      }
      Finished(texts, place, blink[..], bucket[..], out);
      SortedMeans(texts, out);
    }
  }
}
