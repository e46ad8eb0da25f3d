/**
 CWEAVE's cross-reference lists: one memory of linked entries that the lists of all names
 share, with entry 0 as the common end (cweb/cweave.c:1009-1060, 1554-1560, 1675-1698,
 2107-2138).
 */
module Xref {
  const CITE := 10240
  const DEF := 20480
  const FILE := 30720
  const MAX_SECTIONS := 2000

  // ----- Lists of numbers -----

  /** What `new_xref` makes of a list. */
  function AddRef(l: seq<nat>, m: nat): seq<nat> {
    if l != [] && (l[0] == m || l[0] == m + DEF) then l
    else if l != [] && m == l[0] + DEF then [m] + l[1..]
    else [m] + l
  }

  /** How many entries are above s before the first that is not. */
  function Past(l: seq<nat>, s: nat): (k: nat)
    ensures k <= |l| && (forall i :: 0 <= i < k ==> l[i] > s) && (k < |l| ==> l[k] <= s)
  {
    if l == [] || l[0] <= s then 0 else 1 + Past(l[1..], s)
  }

  /** The number of entry k, as r reads it: 0 when there is none. */
  function NumBefore(l: seq<nat>, k: nat): nat
    requires k <= |l|
  {
    if k == 0 then 0 else l[k - 1]
  }

  function Inserted(l: seq<nat>, k: nat, m: nat): seq<nat>
    requires k <= |l|
  {
    l[..k] + [m] + l[k..]
  }

  /** What `new_section_xref` makes of a list, when the switch is s. */
  function AddSectionRef(l: seq<nat>, section: nat, s: nat): seq<nat> {
    var k := Past(l, s);
    if NumBefore(l, k) == section + s then l else Inserted(l, k, section + s)
  }

  /** What `set_file_flag` makes of a list. */
  function AddFileFlag(l: seq<nat>): seq<nat> {
    if l != [] && l[0] == FILE then l else [FILE] + l
  }

  /** Where the search of `underline_xref` stops. */
  function StopAt(l: seq<nat>, m: nat): (k: nat)
    ensures k <= |l|
    ensures k < |l| ==> l[k] == m || m == l[k] + DEF || DEF <= l[k] < m
    ensures forall i :: 0 <= i < k ==> l[i] != m && m != l[i] + DEF && !(DEF <= l[i] < m)
  {
    if l == [] || l[0] == m || m == l[0] + DEF || DEF <= l[0] < m then 0 else 1 + StopAt(l[1..], m)
  }

  ghost predicate Passes(x: nat, m: nat) {
    x != m && m != x + DEF && !(DEF <= x < m)
  }

  lemma {:induction false} StopIs(l: seq<nat>, m: nat, k: nat)
    requires k <= |l| && (forall i :: 0 <= i < k ==> Passes(l[i], m)) && (k < |l| ==> !Passes(l[k], m))
    ensures StopAt(l, m) == k
  {
    if k > 0 {
      assert Passes(l[0], m);
      StopIs(l[1..], m, k - 1);
    }
  }

  /** What `underline_xref` makes of a list. */
  function Underlined(l: seq<nat>, m: nat): seq<nat> {
    var k := StopAt(l, m);
    if k < |l| && l[k] == m then l
    else if k < |l| && m == l[k] + DEF then l[k := m]
    else Inserted(l, k, m)
  }

  lemma AddRefIs(l: seq<nat>, m: nat)
    ensures l != [] && (l[0] == m || l[0] == m + DEF) ==> AddRef(l, m) == l
    ensures l != [] && m == l[0] + DEF ==> AddRef(l, m) == [m] + l[1..]
    ensures !(l != [] && (l[0] == m || l[0] == m + DEF || m == l[0] + DEF)) ==> AddRef(l, m) == [m] + l
  {
  }

  // ----- Identifiers: newest section first, one entry for each -----

  /** The section that an entry of an identifier refers to. */
  function SectionOf(x: nat): nat {
    if x >= DEF then x - DEF else x
  }

  /** One entry for each section, from the latest to the earliest, none above top. */
  ghost predicate Descending(l: seq<nat>, top: nat) {
    && (forall i :: 0 <= i < |l| ==> 0 < SectionOf(l[i]) <= top)
    && (forall i, j :: 0 <= i < j < |l| ==> SectionOf(l[i]) > SectionOf(l[j]))
  }

  /** The entries of sections before s, in a list that goes no further than s. */
  function Earlier(l: seq<nat>, s: nat): seq<nat> {
    if l != [] && SectionOf(l[0]) == s then l[1..] else l
  }

  lemma EarlierBelow(l: seq<nat>, s: nat)
    requires Descending(l, s)
    ensures Descending(Earlier(l, s), s)
    ensures forall i :: 0 <= i < |Earlier(l, s)| ==> SectionOf(Earlier(l, s)[i]) < s
  {
    forall i | 1 <= i < |l| ensures SectionOf(l[i]) < SectionOf(l[0]) { }
  }

  /** The list afterwards: an entry for s, underlined if either reference to s is, before the
   entries of the other sections, which have not changed. */
  lemma AddRefForm(l: seq<nat>, s: nat, flag: nat)
    requires Descending(l, s) && 0 < s < CITE && (flag == 0 || flag == DEF)
    ensures var underlined := flag == DEF || (l != [] && l[0] == s + DEF);
      AddRef(l, s + flag) == [if underlined then s + DEF else s] + Earlier(l, s)
  {
    assert l != [] ==> 0 < SectionOf(l[0]) <= s;
    hide Descending;
    if l != [] && SectionOf(l[0]) != s {
      assert l[0] != s && l[0] != s + DEF;
    }
  }

  lemma AddRefDescending(l: seq<nat>, s: nat, flag: nat)
    requires Descending(l, s) && 0 < s < CITE && (flag == 0 || flag == DEF)
    ensures Descending(AddRef(l, s + flag), s)
  {
    hide AddRef, Earlier, SectionOf;
    EarlierBelow(l, s);
    AddRefForm(l, s, flag);
    var r, e := AddRef(l, s + flag), Earlier(l, s);
    assert SectionOf(r[0]) == s by { Sections(s); }
    assert forall i :: 1 <= i < |r| ==> r[i] == e[i - 1];
  }

  lemma Sections(s: nat)
    requires 0 < s < CITE
    ensures SectionOf(s) == SectionOf(s + DEF) == s
  {
  }

  /** The section has an entry. */
  ghost predicate Mentions(l: seq<nat>, s: nat) {
    exists i :: 0 <= i < |l| && SectionOf(l[i]) == s
  }

  /** The entries before section s, whether or not s is among them. */
  function Later(l: seq<nat>, s: nat): (k: nat)
    ensures k <= |l| && (forall i :: 0 <= i < k ==> SectionOf(l[i]) > s) && (k < |l| ==> SectionOf(l[k]) <= s)
  {
    if l == [] || SectionOf(l[0]) <= s then 0 else 1 + Later(l[1..], s)
  }

  /** Ordered insertion of an underlined reference. */
  function UnderlinedInOrder(l: seq<nat>, s: nat): seq<nat> {
    var k := Later(l, s);
    if k < |l| && SectionOf(l[k]) == s then l[k := s + DEF] else Inserted(l, k, s + DEF)
  }

  /** Exactly when the search may stop at the right place: the section has an entry, or the
   first entry of an earlier section, if there is one, is underlined. */
  ghost predicate FitsAt(l: seq<nat>, s: nat) {
    var k := Later(l, s);
    k == |l| || SectionOf(l[k]) == s || l[k] >= DEF
  }

  lemma SectionsOf(s: nat)
    ensures SectionOf(s + DEF) == s
  {
  }

  lemma InsertedDescending(l: seq<nat>, k: nat, x: nat, top: nat)
    requires Descending(l, top) && k <= |l| && 0 < SectionOf(x) <= top
    requires forall i :: 0 <= i < k ==> SectionOf(l[i]) > SectionOf(x)
    requires forall i :: k <= i < |l| ==> SectionOf(l[i]) < SectionOf(x)
    ensures Descending(Inserted(l, k, x), top)
  {
    hide SectionOf;
    var r := Inserted(l, k, x);
    assert forall i :: 0 <= i < |r| ==> r[i] == if i < k then l[i] else if i == k then x else l[i - 1];
  }

  lemma UnderlinedInOrderDescending(l: seq<nat>, s: nat, top: nat)
    requires Descending(l, top) && 0 < s <= top
    ensures Descending(UnderlinedInOrder(l, s), top)
  {
    hide Later, SectionOf, Inserted;
    var k := Later(l, s);
    SectionsOf(s);
    forall i | k < i < |l| ensures SectionOf(l[i]) < s { assert SectionOf(l[k]) > SectionOf(l[i]); }
    if k == |l| || SectionOf(l[k]) != s {
      InsertedDescending(l, k, s + DEF, top);
    }
  }

  /** The search passes the later sections. */
  lemma StopsBehind(l: seq<nat>, s: nat, top: nat)
    requires Descending(l, top) && 0 < s <= top < CITE
    ensures StopAt(l, s + DEF) >= Later(l, s)
    ensures FitsAt(l, s) <==> StopAt(l, s + DEF) == Later(l, s)
  {
    var m := s + DEF;
    var k, stop := Later(l, s), StopAt(l, m);
    assert forall i :: 0 <= i < k ==> l[i] != m && m != l[i] + DEF && !(DEF <= l[i] < m);
  }

  /** Where it stops too late, an earlier section comes before s. */
  lemma StopsTooLate(l: seq<nat>, s: nat, top: nat)
    requires Descending(l, top) && 0 < s <= top < CITE && !FitsAt(l, s)
    ensures var k, stop, r := Later(l, s), StopAt(l, s + DEF), Underlined(l, s + DEF);
      k < stop < |r| && k < |l| && r[k] == l[k] && r[stop] == s + DEF && SectionOf(r[k]) < SectionOf(r[stop])
  {
    var k, stop := Later(l, s), StopAt(l, s + DEF);
    StopsBehind(l, s, top);
    forall i | k < i < |l| ensures SectionOf(l[i]) < s { assert SectionOf(l[k]) > SectionOf(l[i]); }
    hide Descending, Later, StopAt;
    assert stop < |l| ==> l[stop] != s + DEF && s + DEF != l[stop] + DEF;
    var r := Underlined(l, s + DEF);
    assert r == Inserted(l, stop, s + DEF);
  }

  /** The insertion of `underline_xref` is the ordered insertion, and keeps the list in
   order, exactly in those cases. */
  lemma UnderlineExact(l: seq<nat>, s: nat, top: nat)
    requires Descending(l, top) && 0 < s <= top < CITE
    ensures FitsAt(l, s) <==> Underlined(l, s + DEF) == UnderlinedInOrder(l, s)
    ensures FitsAt(l, s) <==> Descending(Underlined(l, s + DEF), top)
  {
    StopsBehind(l, s, top);
    UnderlinedInOrderDescending(l, s, top);
    if FitsAt(l, s) {
      FitsEqual(l, s, top);
    } else {
      StopsTooLate(l, s, top);
      var k, r := Later(l, s), Underlined(l, s + DEF);
      hide StopAt, Later, Underlined, FitsAt;
      assert UnderlinedInOrder(l, s)[k] == s + DEF;
    }
  }

  lemma FitsEqual(l: seq<nat>, s: nat, top: nat)
    requires Descending(l, top) && 0 < s <= top < CITE && FitsAt(l, s) && StopAt(l, s + DEF) == Later(l, s)
    ensures Underlined(l, s + DEF) == UnderlinedInOrder(l, s)
  {
    hide Inserted, Descending;
  }

  /** In particular when the section is there, or when every entry is underlined. */
  lemma UnderlineFits(l: seq<nat>, s: nat, top: nat)
    requires Descending(l, top)
    requires Mentions(l, s) || forall i :: 0 <= i < |l| ==> l[i] >= DEF
    ensures FitsAt(l, s)
  {
    if Mentions(l, s) {
      var i :| 0 <= i < |l| && SectionOf(l[i]) == s;
      var k := Later(l, s);
      assert forall j :: 0 <= j < i ==> SectionOf(l[j]) > s;
    }
  }

  /** It does go wrong: section 5 is put after section 3. */
  lemma UnderlineOutOfOrder()
    ensures Descending([3, 2 + DEF], 9) && Underlined([3, 2 + DEF], 5 + DEF) == [3, 5 + DEF, 2 + DEF]
    ensures !Descending(Underlined([3, 2 + DEF], 5 + DEF), 9)
  {
    var l := [3, 2 + DEF];
    assert StopAt(l[1..], 5 + DEF) == 0;
    var r := Underlined(l, 5 + DEF);
    assert r == [3, 5 + DEF, 2 + DEF];
    assert SectionOf(r[0]) < SectionOf(r[1]);
  }

  // ----- Section names: file flag, definitions, citations, uses -----

  /** The group of an entry: 3 for the file flag, then 2 definitions, 1 citations, 0 uses. */
  function GroupOf(x: nat): nat {
    if x >= FILE then 3 else x / CITE
  }

  /** A number that may stand on the list of a section name. */
  ghost predicate IsEntry(m: nat, top: nat) {
    m == FILE || (m < FILE && 0 < m % CITE <= top)
  }

  /** Groups in that order; within a group, sections strictly increasing, none above top. */
  ghost predicate Shaped(l: seq<nat>, top: nat) {
    && (forall i :: 0 <= i < |l| ==> IsEntry(l[i], top))
    && (forall i, j :: 0 <= i < j < |l| ==>
          GroupOf(l[i]) > GroupOf(l[j]) || (GroupOf(l[i]) == GroupOf(l[j]) && l[i] < l[j]))
  }

  ghost predicate IsSwitch(s: nat) { s == 0 || s == CITE || s == DEF }

  lemma InsertedShaped(l: seq<nat>, k: nat, m: nat, top: nat)
    requires Shaped(l, top) && k <= |l| && IsEntry(m, top) && Fits(l, k, m)
    ensures Shaped(Inserted(l, k, m), top)
  {
    hide GroupOf;
    var r := Inserted(l, k, m);
    assert forall i :: 0 <= i < |r| ==> r[i] == if i < k then l[i] else if i == k then m else l[i - 1];
  }

  /** An entry above the switch is in its group or an earlier one. */
  lemma GroupAbove(x: nat, section: nat, s: nat)
    requires IsSwitch(s) && 0 < section < CITE && IsEntry(x, section)
    ensures GroupOf(section + s) == s / CITE && (section + s) % CITE == section
    ensures x > s <==> GroupOf(x) >= GroupOf(section + s)
    ensures GroupOf(x) == GroupOf(section + s) ==> x <= section + s
    ensures x != FILE ==> x == CITE * GroupOf(x) + x % CITE
  {
  }

  lemma GroupsAbove(l: seq<nat>, section: nat, s: nat)
    requires Shaped(l, section) && 0 < section < CITE && IsSwitch(s)
    ensures forall i :: 0 <= i < |l| ==> (l[i] > s <==> GroupOf(l[i]) >= GroupOf(section + s))
    ensures forall i :: 0 <= i < |l| && GroupOf(l[i]) == GroupOf(section + s) ==> l[i] <= section + s
  {
    hide GroupOf;
    forall i | 0 <= i < |l|
      ensures l[i] > s <==> GroupOf(l[i]) >= GroupOf(section + s)
      ensures GroupOf(l[i]) == GroupOf(section + s) ==> l[i] <= section + s
    {
      GroupAbove(l[i], section, s);
    }
  }

  /** How the entries around the place of insertion compare with the new one. */
  lemma PlaceOfSection(l: seq<nat>, section: nat, s: nat)
    requires Shaped(l, section) && 0 < section < CITE && IsSwitch(s)
    ensures var k, m := Past(l, s), section + s;
      && (forall i :: 0 <= i < k ==> GroupOf(l[i]) > GroupOf(m) || (GroupOf(l[i]) == GroupOf(m) && l[i] <= m))
      && (forall i :: 0 <= i < k - 1 ==> l[i] != m)
      && (forall i :: k <= i < |l| ==> GroupOf(l[i]) < GroupOf(m))
  {
    hide GroupOf, Past;
    var k, m := Past(l, s), section + s;
    GroupsAbove(l, section, s);
    forall i | k < i < |l| ensures GroupOf(l[k]) >= GroupOf(l[i]) { }
    forall i | 0 <= i < k - 1 ensures l[i] != m {
      assert GroupOf(l[i]) > GroupOf(l[k - 1]) || (GroupOf(l[i]) == GroupOf(l[k - 1]) && l[i] < l[k - 1]);
    }
  }

  lemma InsertedHas(l: seq<nat>, k: nat, m: nat, x: nat)
    requires k <= |l|
    ensures x in Inserted(l, k, m) <==> x in l || x == m
  {
    assert l == l[..k] + l[k..];
  }

  lemma SectionIsEntry(section: nat, s: nat)
    requires 0 < section < CITE && IsSwitch(s)
    ensures IsEntry(section + s, section)
  {
    GroupAbove(FILE, section, s);
  }

  /** The new entry belongs behind the first ones and before the others. */
  ghost predicate Fits(l: seq<nat>, k: nat, m: nat)
    requires k <= |l|
  {
    && (forall i :: 0 <= i < k ==> GroupOf(l[i]) > GroupOf(m) || (GroupOf(l[i]) == GroupOf(m) && l[i] < m))
    && (forall i :: k <= i < |l| ==> GroupOf(l[i]) < GroupOf(m))
  }

  lemma PlaceFits(l: seq<nat>, section: nat, s: nat)
    requires Shaped(l, section) && 0 < section < CITE && IsSwitch(s) && NumBefore(l, Past(l, s)) != section + s
    ensures Fits(l, Past(l, s), section + s)
  {
    PlaceOfSection(l, section, s);
    hide Past, GroupOf, Shaped;
    var k, m := Past(l, s), section + s;
    forall i | 0 <= i < k ensures l[i] != m {
      if i == k - 1 { assert NumBefore(l, k) == l[i]; }
    }
  }

  lemma AddSectionRefShaped(l: seq<nat>, section: nat, s: nat)
    requires Shaped(l, section) && 0 < section < CITE && IsSwitch(s)
    ensures Shaped(AddSectionRef(l, section, s), section)
  {
    hide Past, Inserted, Shaped, Fits, IsEntry;
    if NumBefore(l, Past(l, s)) != section + s {
      PlaceFits(l, section, s);
      SectionIsEntry(section, s);
      InsertedShaped(l, Past(l, s), section + s, section);
    }
  }

  /** The new entry is there, with the old ones and no others. */
  lemma AddSectionRefHas(l: seq<nat>, section: nat, s: nat, x: nat)
    requires 0 < section
    ensures x in AddSectionRef(l, section, s) <==> x in l || x == section + s
  {
    hide Inserted, Past;
    var k := Past(l, s);
    InsertedHas(l, k, section + s, x);
    if NumBefore(l, k) == section + s {
      assert l[k - 1] in l;
    }
  }

  lemma AddFileFlagShaped(l: seq<nat>, top: nat)
    requires Shaped(l, top)
    ensures Shaped(AddFileFlag(l), top)
  {
    if l == [] || l[0] != FILE {
      forall i | 0 <= i < |l| ensures GroupOf(l[i]) < 3 {
        assert i > 0 ==> GroupOf(l[0]) > GroupOf(l[i]) || (GroupOf(l[0]) == GroupOf(l[i]) && l[0] < l[i]);
      }
      InsertedShaped(l, 0, FILE, top);
      assert Inserted(l, 0, FILE) == [FILE] + l;
    }
  }

  /** The flag is there, in front, with the old entries and no others. */
  lemma AddFileFlagHas(l: seq<nat>, x: nat)
    ensures AddFileFlag(l) != [] && AddFileFlag(l)[0] == FILE
    ensures x in AddFileFlag(l) <==> x in l || x == FILE
    ensures FILE !in l ==> AddFileFlag(l)[1..] == l
  {
  }

  /** Later sections see the same lists. */
  lemma OrderedLater(l: seq<nat>, top: nat)
    ensures Shaped(l, top) ==> Shaped(l, top + 1)
    ensures Descending(l, top) ==> Descending(l, top + 1)
  {
  }

  // ----- Linked lists -----

  /** The k-th entry of a list, 0 behind its end. */
  function Node(l: seq<nat>, k: nat): nat {
    if k < |l| then l[k] else 0
  }

  /** The i-th entry is linked to the next. */
  ghost predicate LinkAt(xlink: seq<nat>, l: seq<nat>, i: nat)
    requires i < |l|
  {
    0 < l[i] < |xlink| && xlink[l[i]] == Node(l, i + 1)
  }

  /** The list l, of name p, starts at head. */
  ghost predicate IsPath(xlink: seq<nat>, owner: seq<nat>, head: nat, l: seq<nat>, p: nat) {
    && |owner| == |xlink| && head == Node(l, 0)
    && (forall i :: 0 <= i < |l| ==> LinkAt(xlink, l, i))
    && (forall i :: 0 <= i < |l| ==> 0 < l[i] < |owner| && owner[l[i]] == p)
    && (forall i, j :: 0 <= i < j < |l| ==> l[i] != l[j])
  }

  /** A new entry behind the k-th of the list. */
  ghost function LinkedIn(xlink: seq<nat>, l: seq<nat>, k: nat): (r: seq<nat>)
    requires k <= |l| && forall i :: 0 <= i < |l| ==> l[i] < |xlink|
    ensures |r| == |xlink| + 1
  {
    (if k == 0 then xlink else xlink[l[k - 1] := |xlink|]) + [Node(l, k)]
  }

  lemma InsertPath(xlink: seq<nat>, owner: seq<nat>, head: nat, l: seq<nat>, p: nat, k: nat)
    requires IsPath(xlink, owner, head, l, p) && k <= |l| && 0 < |xlink|
    ensures IsPath(LinkedIn(xlink, l, k), owner + [p], if k == 0 then |xlink| else head, Inserted(l, k, |xlink|), p)
  {
    var l', owner' := Inserted(l, k, |xlink|), owner + [p];
    InsertedAt(l, k, |xlink|);
    InsertLinks(xlink, owner, head, l, p, k);
    hide LinkAt, Inserted, LinkedIn;
    forall i | 0 <= i < |l'| ensures 0 < l'[i] < |owner'| && owner'[l'[i]] == p {
      assert l'[i] == if i < k then l[i] else if i == k then |xlink| else l[i - 1];
    }
  }

  lemma InsertedAt(l: seq<nat>, k: nat, x: nat)
    requires k <= |l|
    ensures var l' := Inserted(l, k, x);
      |l'| == |l| + 1 && forall i :: 0 <= i < |l'| ==> l'[i] == if i < k then l[i] else if i == k then x else l[i - 1]
  {
  }

  lemma InsertLinks(xlink: seq<nat>, owner: seq<nat>, head: nat, l: seq<nat>, p: nat, k: nat)
    requires IsPath(xlink, owner, head, l, p) && k <= |l| && 0 < |xlink|
    ensures var l' := Inserted(l, k, |xlink|); forall i :: 0 <= i < |l'| ==> LinkAt(LinkedIn(xlink, l, k), l', i)
  {
    var l', xlink' := Inserted(l, k, |xlink|), LinkedIn(xlink, l, k);
    InsertedAt(l, k, |xlink|);
    forall i | 0 <= i < |l'| ensures LinkAt(xlink', l', i) {
      if i < k {
        assert LinkAt(xlink, l, i);
      } else if i > k {
        assert LinkAt(xlink, l, i - 1);
      }
    }
  }

  /** Which is nothing to the lists of other names. */
  lemma OtherPath(xlink: seq<nat>, owner: seq<nat>, head: nat, l: seq<nat>, p: nat, k: nat, head2: nat, l2: seq<nat>, p2: nat)
    requires IsPath(xlink, owner, head, l, p) && k <= |l|
    requires IsPath(xlink, owner, head2, l2, p2) && p != p2
    ensures IsPath(LinkedIn(xlink, l, k), owner + [p], head2, l2, p2)
  {
    if k > 0 { assert owner[l[k - 1]] == p; }
    forall i | 0 <= i < |l2| ensures LinkAt(LinkedIn(xlink, l, k), l2, i) {
      assert LinkAt(xlink, l2, i);
    }
  }

  lemma PathLinks(xlink: seq<nat>, l: seq<nat>, k: nat)
    requires k <= |l| && forall i :: 0 <= i < |l| ==> l[i] < |xlink|
    ensures LinkedIn(xlink, l, k) == (if k == 0 then xlink else xlink[l[k - 1] := |xlink|]) + [Node(l, k)]
  {
  }

  lemma PathBounds(xlink: seq<nat>, owner: seq<nat>, head: nat, l: seq<nat>, p: nat)
    requires IsPath(xlink, owner, head, l, p)
    ensures forall i :: 0 <= i < |l| ==> 0 < l[i] < |xlink|
  {
  }

  lemma {:induction false} PastIs(l: seq<nat>, s: nat, k: nat)
    requires k <= |l| && (forall i :: 0 <= i < k ==> l[i] > s) && (k < |l| ==> l[k] <= s)
    ensures Past(l, s) == k
  {
    if k > 0 { PastIs(l[1..], s, k - 1); }
  }

  lemma HeadIs(xlink: seq<nat>, owner: seq<nat>, head: nat, l: seq<nat>, p: nat)
    requires IsPath(xlink, owner, head, l, p)
    ensures head == Node(l, 0)
  {
  }

  lemma NextIs(xlink: seq<nat>, owner: seq<nat>, head: nat, l: seq<nat>, p: nat, i: nat)
    requires IsPath(xlink, owner, head, l, p)
    ensures i < |l| ==> 0 < l[i] < |xlink| && xlink[l[i]] == Node(l, i + 1)
  {
    if i < |l| { assert LinkAt(xlink, l, i); }
  }

  /** Different places of a list are different entries. */
  lemma StopsAt(xlink: seq<nat>, owner: seq<nat>, head: nat, l: seq<nat>, p: nat, j: nat, k: nat)
    requires IsPath(xlink, owner, head, l, p) && j < |l| && k < |l|
    ensures Node(l, j + 1) == Node(l, k + 1) <==> j == k
  {
  }

  lemma NodeIs(l: seq<nat>, i: nat)
    ensures Node(l, i) == if i < |l| then l[i] else 0
  {
  }

  lemma InsertedFront(l: seq<nat>, m: nat)
    ensures Inserted(l, 0, m) == [m] + l
  {
  }

  lemma Refill(l: seq<nat>, k: nat, v: nat, m: nat)
    requires k <= |l|
    ensures Inserted(l, k, v)[k := m] == Inserted(l, k, m)
  {
  }

  /** Moving the number behind the gap into the gap moves the gap. */
  lemma Shift(l: seq<nat>, j: nat, v: nat)
    requires j < |l|
    ensures Inserted(l, j, v)[j + 1] == l[j]
    ensures Inserted(l, j, v)[j := l[j]] == Inserted(l, j + 1, l[j])
  {
  }

  function Without(l: seq<nat>, k: nat): seq<nat>
    requires k < |l|
  {
    l[..k] + l[k + 1..]
  }

  lemma WithoutKeeps(l: seq<nat>, k: nat)
    requires k < |l|
    ensures |Without(l, k)| == |l| - 1 && (k > 0 ==> Without(l, k)[k - 1] == l[k - 1])
  {
  }

  lemma RemovePath(xlink: seq<nat>, owner: seq<nat>, head: nat, l: seq<nat>, p: nat, k: nat)
    requires IsPath(xlink, owner, head, l, p) && k < |l|
    ensures 0 < l[k] < |xlink| && xlink[l[k]] == Node(Without(l, k), k)
    ensures IsPath(if k == 0 then xlink else xlink[l[k - 1] := xlink[l[k]]], owner, if k == 0 then xlink[l[k]] else head,
                   Without(l, k), p)
    ensures k > 0 ==> l[k - 1] != l[k]
  {
    var l', xlink' := Without(l, k), if k == 0 then xlink else xlink[l[k - 1] := xlink[l[k]]];
    assert forall i :: 0 <= i < |l'| ==> l'[i] == if i < k then l[i] else l[i + 1];
    assert LinkAt(xlink, l, k);
    forall i | 0 <= i < |l'| ensures LinkAt(xlink', l', i) {
      assert LinkAt(xlink, l, if i < k then i else i + 1);
    }
  }

  lemma RemoveOther(xlink: seq<nat>, owner: seq<nat>, head: nat, l: seq<nat>, p: nat, k: nat, head2: nat, l2: seq<nat>, p2: nat)
    requires IsPath(xlink, owner, head, l, p) && k < |l|
    requires IsPath(xlink, owner, head2, l2, p2) && p != p2
    ensures IsPath(if k == 0 then xlink else xlink[l[k - 1] := xlink[l[k]]], owner, head2, l2, p2)
  {
    var xlink' := if k == 0 then xlink else xlink[l[k - 1] := xlink[l[k]]];
    if k > 0 { assert owner[l[k - 1]] == p; }
    forall i | 0 <= i < |l2| ensures LinkAt(xlink', l2, i) {
      assert LinkAt(xlink, l2, i);
    }
  }

  lemma EndIs(xlink: seq<nat>, owner: seq<nat>, head: nat, l: seq<nat>, p: nat, k: nat)
    requires IsPath(xlink, owner, head, l, p) && Node(l, k) == 0
    ensures k >= |l|
  {
  }

  /** The underlined entries. */
  function OnlyUnderlined(l: seq<nat>): seq<nat> {
    if l == [] then [] else OnlyUnderlined(l[..|l| - 1]) + if l[|l| - 1] >= DEF then [l[|l| - 1]] else []
  }

  lemma {:induction false} UnderlinedDescending(l: seq<nat>, top: nat)
    requires Descending(l, top)
    ensures Descending(OnlyUnderlined(l), top)
    ensures forall i :: 0 <= i < |OnlyUnderlined(l)| ==> OnlyUnderlined(l)[i] in l
    ensures forall x :: x in OnlyUnderlined(l) <==> x in l && x >= DEF
  {
    hide OnlyUnderlined;
    if l != [] {
      var l', x := l[..|l| - 1], l[|l| - 1];
      UnderlinedDescending(l', top);
      OnlyUnderlinedIs(l);
      assert l == l' + [x];
      hide Descending;
      LastBelow(l', x, top);
      if x >= DEF { DescendingSnoc(OnlyUnderlined(l'), x, top); }
    } else {
      NoneUnderlined(l);
    }
  }

  lemma NoneUnderlined(l: seq<nat>)
    requires l == []
    ensures OnlyUnderlined(l) == []
  {
  }

  lemma LastBelow(l: seq<nat>, x: nat, top: nat)
    requires Descending(l + [x], top)
    ensures 0 < SectionOf(x) <= top && forall y :: y in l ==> SectionOf(y) > SectionOf(x)
  {
    assert (l + [x])[|l|] == x;
    forall y | y in l ensures SectionOf(y) > SectionOf(x) {
      var i :| 0 <= i < |l| && l[i] == y;
      assert (l + [x])[i] == y;
    }
  }

  lemma DescendingSnoc(l: seq<nat>, x: nat, top: nat)
    requires Descending(l, top) && 0 < SectionOf(x) <= top && forall y :: y in l ==> SectionOf(y) > SectionOf(x)
    ensures Descending(l + [x], top)
  {
    assert forall i :: 0 <= i < |l| ==> l[i] in l;
  }

  lemma OnlyUnderlinedIs(l: seq<nat>)
    requires l != []
    ensures OnlyUnderlined(l) == OnlyUnderlined(l[..|l| - 1]) + if l[|l| - 1] >= DEF then [l[|l| - 1]] else []
  {
  }

  /** After i entries, k have stayed. */
  ghost predicate Dropping(e: seq<nat>, was: seq<nat>, i: nat, k: nat)
    requires i <= |was|
  {
    e == OnlyUnderlined(was[..i]) + was[i..] && k == |OnlyUnderlined(was[..i])|
  }

  lemma DropStart(was: seq<nat>)
    ensures Dropping(was, was, 0, 0)
  {
  }

  lemma DropStep(e: seq<nat>, was: seq<nat>, i: nat, k: nat)
    requires i <= |was| && Dropping(e, was, i, k) && k < |e|
    ensures i < |was|
    ensures e[k] < DEF ==> Dropping(Without(e, k), was, i + 1, k)
    ensures e[k] >= DEF ==> Dropping(e, was, i + 1, k + 1)
  {
    hide OnlyUnderlined;
    OnlyUnderlinedIs(was[..i + 1]);
    assert was[..i + 1][..i] == was[..i];
  }

  lemma DropDone(e: seq<nat>, was: seq<nat>, i: nat, k: nat)
    requires i <= |was| && Dropping(e, was, i, k) && k >= |e|
    ensures e == OnlyUnderlined(was)
  {
    assert was[..i] == was;
  }

  /** What `section_check` concludes from the first entry and from where the uses start. */
  lemma CheckExact(e: seq<nat>, top: nat, k0: nat, k: nat)
    requires Shaped(e, top) && k0 <= k <= |e|
    requires k0 == if e != [] && e[0] == FILE then 1 else 0
    requires (forall i :: k0 <= i < k ==> e[i] >= CITE) && (k < |e| ==> e[k] < CITE)
    ensures (k0 == |e| || e[k0] < DEF) <==> forall x :: x in e ==> GroupOf(x) != 2
    ensures (k == |e| && k0 == 0) <==> forall x :: x in e ==> GroupOf(x) != 0 && GroupOf(x) != 3
  {
    forall i | k0 <= i < |e| ensures e[i] < FILE {
      assert i > 0 ==> GroupOf(e[0]) > GroupOf(e[i]) || e[0] < e[i];
    }
    if k0 < |e| && e[k0] < DEF {
      forall x | x in e ensures GroupOf(x) != 2 {
        var i :| 0 <= i < |e| && e[i] == x;
        assert i > k0 ==> GroupOf(e[k0]) > GroupOf(e[i]) || GroupOf(e[k0]) == GroupOf(e[i]);
      }
    }
    if k0 == 1 { assert e[0] in e; }
    if k < |e| { assert e[k] in e; }
    if k0 < |e| { assert e[k0] in e; }
  }

  /** The numbers of the entries. */
  ghost function Nums(num: seq<nat>, l: seq<nat>): (r: seq<nat>)
    requires forall i :: 0 <= i < |l| ==> l[i] < |num|
    ensures |r| == |l|
  {
    seq(|l|, i requires 0 <= i < |l| => num[l[i]])
  }

  lemma NumAt(num: seq<nat>, l: seq<nat>, k: nat)
    requires k < |l| && forall i :: 0 <= i < |l| ==> l[i] < |num|
    ensures Nums(num, l)[k] == num[l[k]]
  {
  }

  // ----- The memory -----

  class Memory {
    var num: seq<nat>
    var xlink: seq<nat>
    var xref: seq<nat>          // for each name, the head of its list
    var isSection: seq<bool>    // for each name, whether it is a section name
    var sectionCount: nat
    var xrefSwitch: nat
    var sectionXrefSwitch: nat
    const noXref: bool
    ghost var lists: seq<seq<nat>>
    ghost var owner: seq<nat>

    /** The memory holds a separate list for each name. */
    ghost predicate Linked()
      reads this`num, this`xlink, this`xref, this`isSection, this`lists, this`owner
    {
      && 0 < |num| == |xlink| == |owner| && num[0] == 0
      && |xref| == |lists| == |isSection|
      && (forall p :: 0 <= p < |xref| ==> IsPath(xlink, owner, xref[p], lists[p], p))
    }

    /** The numbers on the list of a name. */
    ghost function Entries(p: nat): seq<nat>
      requires Linked() && p < |xref|
      reads this`num, this`xlink, this`xref, this`isSection, this`lists, this`owner
    {
      assert IsPath(xlink, owner, xref[p], lists[p], p);
      Nums(num, lists[p])
    }

    /** The list of a name is in order, and goes no further than the section being read. */
    ghost predicate InOrder(p: nat)
      requires Linked() && p < |xref|
      reads this`num, this`xlink, this`xref, this`isSection, this`lists, this`owner, this`sectionCount
    {
      if isSection[p] then Shaped(Entries(p), sectionCount) else Descending(Entries(p), sectionCount)
    }

    /** What holds throughout phase one. */
    ghost predicate Valid()
      reads this
    {
      && Linked() && (forall p :: 0 <= p < |xref| ==> InOrder(p))
      && (xrefSwitch == 0 || xrefSwitch == DEF) && IsSwitch(sectionXrefSwitch)
      && sectionCount < MAX_SECTIONS
    }

    constructor (noXref: bool)
      ensures Valid() && |xref| == 0 && sectionCount == 0 && this.noXref == noXref
    {
      num, xlink, xref, isSection := [0], [0], [], [];
      sectionCount, xrefSwitch, sectionXrefSwitch := 0, 0, 0;
      this.noXref := noXref;
      lists, owner := [], [0];
    }

    /** `init_p` and `init_node`: a new name has the empty list. */
    method AddName(section: bool)
      requires Valid()
      modifies this
      ensures Valid() && |xref| == old(|xref|) + 1 && isSection == old(isSection) + [section]
      ensures Entries(|xref| - 1) == []
      ensures forall p :: 0 <= p < old(|xref|) ==> Entries(p) == old(Entries(p))
      ensures sectionCount == old(sectionCount)
    {
      assert forall p :: 0 <= p < |xref| ==> Entries(p) == Nums(num, lists[p]);
      xref, lists, isSection := xref + [0], lists + [[]], isSection + [section];
      assert Linked();
      assert forall p :: 0 <= p < |xref| - 1 ==> Entries(p) == old(Entries(p));
      forall x | 0 <= x < |xref| ensures InOrder(x) {
        if x < |xref| - 1 { assert old(InOrder(x)); }
      }
    }

    /** A new section begins; too many of them are an overflow. */
    method NextSection() returns (ok: bool)
      requires Valid()
      modifies this`sectionCount
      ensures ok <==> old(sectionCount) + 1 < MAX_SECTIONS
      ensures ok ==> Valid() && sectionCount == old(sectionCount) + 1
      ensures ok ==> forall p :: 0 <= p < |xref| ==> Entries(p) == old(Entries(p))
    {
      if sectionCount + 1 == MAX_SECTIONS { return false; }
      sectionCount := sectionCount + 1;
      forall x | 0 <= x < |xref| ensures InOrder(x) {
        assert old(InOrder(x));
        OrderedLater(Entries(x), sectionCount - 1);
      }
      return true;
    }

    /** The lists of all names but p are as they were. */
    twostate predicate OnlyListOf(p: nat)
      requires old(Linked()) && Linked()
      reads this
    {
      && |xref| == old(|xref|) && isSection == old(isSection) && sectionCount == old(sectionCount)
      && (forall x :: 0 <= x < |xref| && x != p ==> Entries(x) == old(Entries(x)))
    }

    /** A new entry numbered m is linked in behind the k-th of the list of p, r, or at its front. */
    method Insert(p: nat, m: nat, r: nat, q: nat, ghost k: nat)
      requires Linked() && p < |xref| && k <= |lists[p]| && q == Node(lists[p], k)
      requires r == if k == 0 then 0 else lists[p][k - 1]
      modifies this`num, this`xlink, this`xref, this`lists, this`owner
      ensures Linked() && Entries(p) == Inserted(old(Entries(p)), k, m) && OnlyListOf(p)
      ensures lists == old(lists)[p := Inserted(old(lists[p]), k, old(|num|))]
    {
      hide LinkAt, Node, LinkedIn;
      ghost var l := lists[p];
      InsertPath(xlink, owner, xref[p], l, p, k);
      forall x | 0 <= x < |xref| && x != p
        ensures IsPath(LinkedIn(xlink, l, k), owner + [p], xref[x], lists[x], x)
      {
        OtherPath(xlink, owner, xref[p], l, p, k, xref[x], lists[x], x);
      }
      PathBounds(xlink, owner, xref[p], l, p);
      forall x | 0 <= x < |xref| ensures Nums(num + [m], lists[x]) == Nums(num, lists[x]) {
        PathBounds(xlink, owner, xref[x], lists[x], x);
      }
      PathLinks(xlink, l, k);
      if r == 0 {
        xlink := xlink + [q];
        xref := xref[p := |num|];
      } else {
        xlink := xlink[r := |num|] + [q];
      }
      num, lists, owner := num + [m], lists[p := Inserted(l, k, |num|)], owner + [p];
      assert Linked();
      assert Entries(p) == Inserted(old(Entries(p)), k, m);
    }

    /** The k-th entry of the list of p, at q, is renumbered. */
    method Renumber(p: nat, q: nat, m: nat, ghost k: nat)
      requires Linked() && p < |xref| && k < |lists[p]| && q == lists[p][k]
      modifies this`num
      ensures Linked() && Entries(p) == old(Entries(p))[k := m] && OnlyListOf(p)
    {
      hide LinkAt, Node;
      assert IsPath(xlink, owner, xref[p], lists[p], p);
      num := num[q := m];
      assert Linked();
      assert Entries(p) == old(Entries(p))[k := m];
      forall x | 0 <= x < |xref| && x != p ensures Entries(x) == old(Entries(x)) {
        assert IsPath(xlink, owner, xref[x], lists[x], x);
      }
    }

    /** The lists of the other names stay in order. */
    twostate lemma StillInOrder(p: nat)
      requires old(Linked()) && (forall x :: 0 <= x < |old(xref)| ==> old(InOrder(x)))
      requires Linked() && OnlyListOf(p) && p < |xref| && InOrder(p)
      ensures forall x :: 0 <= x < |xref| ==> InOrder(x)
    {
      forall x | 0 <= x < |xref| ensures InOrder(x) {
        if x != p { assert old(InOrder(x)); }
      }
    }

    /** `new_xref`; quiet says that the name is unindexed or a single letter. */
    method NewXref(p: nat, quiet: bool)
      requires Valid() && p < |xref| && !isSection[p] && sectionCount > 0
      modifies this
      ensures Valid() && OnlyListOf(p)
      ensures var m := sectionCount + old(xrefSwitch);
        Entries(p) == if noXref || (quiet && m == sectionCount) then old(Entries(p)) else AddRef(old(Entries(p)), m)
    {
      hide LinkAt, IsPath, Shaped, Descending, Inserted, Node, AddRef, Nums;
      if noXref || (quiet && xrefSwitch == 0) { return; }
      var m := sectionCount + xrefSwitch;
      ghost var was, l := Entries(p), lists[p];
      assert InOrder(p);
      AddRefDescending(was, sectionCount, xrefSwitch);
      AddRefIs(was, m);
      xrefSwitch := 0;
      var q := xref[p];
      HeadIs(xlink, owner, q, l, p);
      NodeIs(l, 0);
      PathBounds(xlink, owner, q, l, p);
      if q != 0 {
        var n := num[q];
        NumAt(num, l, 0);
        if n == m || n == m + DEF { return; }
        if m == n + DEF {
          Renumber(p, q, m, 0);
          assert was[0 := m] == [m] + was[1..];
          StillInOrder(p);
          return;
        }
      }
      Insert(p, m, 0, q, 0);
      InsertedFront(was, m);
      StillInOrder(p);
    }

    /** The search of `new_section_xref`: the entries above the switch, up to r, and the next, q. */
    method FindPlace(p: nat) returns (q: nat, r: nat, ghost k: nat)
      requires Linked() && p < |xref|
      ensures k == Past(Entries(p), sectionXrefSwitch) && q == Node(lists[p], k)
      ensures r == if k == 0 then 0 else lists[p][k - 1]
      ensures r < |num| && num[r] == NumBefore(Entries(p), k)
    {
      hide Past;
      q, r, k := xref[p], 0, 0;
      ghost var l := lists[p];
      assert IsPath(xlink, owner, q, l, p);
      while num[q] > sectionXrefSwitch
        invariant k <= |l| && q == Node(l, k) && r == if k == 0 then 0 else l[k - 1]
        invariant q < |num|
        invariant forall i :: 0 <= i < k ==> Entries(p)[i] > sectionXrefSwitch
        decreases |l| - k
      {
        assert LinkAt(xlink, l, k);
        r := q;
        q := xlink[q];
        k := k + 1;
      }
      PastIs(Entries(p), sectionXrefSwitch, k);
    }

    /** `new_section_xref`. */
    method NewSectionXref(p: nat)
      requires Valid() && p < |xref| && isSection[p] && sectionCount > 0
      modifies this
      ensures Valid() && OnlyListOf(p)
      ensures Entries(p) == AddSectionRef(old(Entries(p)), sectionCount, old(sectionXrefSwitch))
    {
      hide LinkAt, IsPath, Shaped, Descending, Past, Inserted, Node;
      assert InOrder(p);
      AddSectionRefShaped(Entries(p), sectionCount, sectionXrefSwitch);
      var q, r, k := FindPlace(p);
      var m := sectionCount + sectionXrefSwitch;
      if num[r] == m { return; }
      Insert(p, m, r, q, k);
      sectionXrefSwitch := 0;
      StillInOrder(p);
    }

    /** `set_file_flag`. */
    method SetFileFlag(p: nat)
      requires Valid() && p < |xref| && isSection[p]
      modifies this
      ensures Valid() && OnlyListOf(p) && Entries(p) == AddFileFlag(old(Entries(p)))
    {
      hide LinkAt, IsPath, Shaped, Descending, Inserted, Node;
      ghost var was, l := Entries(p), lists[p];
      assert InOrder(p);
      AddFileFlagShaped(was, sectionCount);
      var q := xref[p];
      HeadIs(xlink, owner, q, l, p);
      NodeIs(l, 0);
      PathBounds(xlink, owner, q, l, p);
      if num[q] == FILE { return; }
      Insert(p, FILE, 0, q, 0);
      InsertedFront(was, FILE);
      StillInOrder(p);
    }

    /** The search of `underline_xref`. */
    method FindEntry(p: nat, m: nat) returns (q: nat, ghost k: nat)
      requires Linked() && p < |xref|
      ensures k == StopAt(Entries(p), m) && q == Node(lists[p], k)
      ensures k < |lists[p]| ==> 0 < q < |num| && num[q] == Entries(p)[k]
    {
      hide StopAt;
      q, k := xref[p], 0;
      ghost var l := lists[p];
      assert IsPath(xlink, owner, q, l, p);
      while q != 0 && !(num[q] == m || m == num[q] + DEF || (num[q] >= DEF && num[q] < m))
        invariant k <= |l| && q == Node(l, k) && q < |num|
        invariant forall i :: 0 <= i < k ==> Passes(Entries(p)[i], m)
        decreases |l| - k
      {
        assert LinkAt(xlink, l, k);
        q := xlink[q];
        k := k + 1;
      }
      StopIs(Entries(p), m, k);
    }

    /** Moves the first k numbers behind the first one entry forward, and puts m behind them. */
    method ShiftNums(p: nat, m: nat, q: nat, ghost k: nat, ghost was: seq<nat>)
      requires Linked() && p < |xref| && k + 1 <= |lists[p]| && q == Node(lists[p], k + 1)
      requires k <= |was| && Entries(p) == Inserted(was, 0, Entries(p)[0])
      modifies this`num
      ensures Linked() && Entries(p) == Inserted(was, k, m) && OnlyListOf(p)
    {
      hide LinkAt, IsPath, Inserted, Node;
      ghost var l := lists[p];
      var r := xref[p];
      ghost var j := 0;
      HeadIs(xlink, owner, r, l, p);
      NodeIs(l, 0);
      NextIs(xlink, owner, r, l, p, 0);
      StopsAt(xlink, owner, r, l, p, 0, k);
      while xlink[r] != q
        invariant Linked() && OnlyListOf(p) && j <= k
        invariant r == l[j] && r < |xlink| && xlink[r] == Node(l, j + 1) && (xlink[r] == q <==> j == k)
        invariant Entries(p) == Inserted(was, j, Entries(p)[j])
        decreases k - j
      {
        NodeIs(l, j + 1);
        NextIs(xlink, owner, xref[p], l, p, j + 1);
        StopsAt(xlink, owner, xref[p], l, p, j + 1, k);
        Shift(was, j, Entries(p)[j]);
        assert num[xlink[r]] == Entries(p)[j + 1];
        Renumber(p, r, num[xlink[r]], j);
        r := xlink[r];
        j := j + 1;
      }
      Refill(was, k, Entries(p)[k], m);
      Renumber(p, r, m, k);
    }

    /** The insertion of `underline_xref`: a new entry at the front, and every number before
     q moved one entry forward to make room for m. */
    method InsertShifting(p: nat, m: nat, q: nat, ghost k: nat)
      requires Linked() && p < |xref| && k <= |lists[p]| && q == Node(lists[p], k)
      modifies this`num, this`xlink, this`xref, this`lists, this`owner
      ensures Linked() && Entries(p) == Inserted(old(Entries(p)), k, m) && OnlyListOf(p)
    {
      hide LinkAt, IsPath;
      ghost var was, l := Entries(p), lists[p];
      HeadIs(xlink, owner, xref[p], l, p);
      Insert(p, 0, 0, xref[p], 0);
      assert lists[p] == [lists[p][0]] + l;
      ShiftNums(p, m, q, k, was);
    }

    /** `underline_xref`. */
    method UnderlineXref(p: nat)
      requires Linked() && p < |xref|
      modifies this`num, this`xlink, this`xref, this`lists, this`owner
      ensures Linked() && OnlyListOf(p)
      ensures Entries(p) == if noXref then old(Entries(p)) else Underlined(old(Entries(p)), sectionCount + xrefSwitch)
    {
      hide StopAt, LinkAt, IsPath, Inserted, Node;
      if noXref { return; }
      var m := sectionCount + xrefSwitch;
      var q, k := FindEntry(p, m);
      NodeIs(lists[p], k);
      if q != 0 && num[q] == m { return; }
      if q != 0 && m == num[q] + DEF {
        Renumber(p, q, m, k);
      } else {
        InsertShifting(p, m, q, k);
      }
    }

    /** Takes the k-th entry q, behind r, out of the list of p. */
    method Unlink(p: nat, r: nat, q: nat, ghost k: nat)
      requires Linked() && p < |xref| && k < |lists[p]| && q == lists[p][k]
      requires r == if k == 0 then 0 else lists[p][k - 1]
      modifies this`xlink, this`xref, this`lists
      ensures Linked() && Entries(p) == Without(old(Entries(p)), k) && OnlyListOf(p)
      ensures lists == old(lists)[p := Without(old(lists[p]), k)]
      ensures q < |xlink| && xlink[q] == Node(lists[p], k)
    {
      hide LinkAt, Node;
      ghost var l := lists[p];
      RemovePath(xlink, owner, xref[p], l, p, k);
      forall x | 0 <= x < |xref| && x != p
        ensures IsPath(if k == 0 then xlink else xlink[r := xlink[q]], owner, xref[x], lists[x], x)
      {
        RemoveOther(xlink, owner, xref[p], l, p, k, xref[x], lists[x], x);
      }
      if r != 0 {
        xlink := xlink[r := xlink[q]];
      } else {
        xref := xref[p := xlink[q]];
      }
      lists := lists[p := Without(l, k)];
      assert Linked();
      assert Entries(p) == Without(old(Entries(p)), k);
      assert forall x :: 0 <= x < |xref| && x != p ==> Entries(x) == old(Entries(x));
    }

    /** When an identifier becomes unindexed, only its underlined entries stay (cweb/cweave.c:1554-1560). */
    method DropPlain(p: nat)
      requires Valid() && p < |xref| && !isSection[p]
      modifies this`xlink, this`xref, this`lists
      ensures Valid() && OnlyListOf(p) && Entries(p) == OnlyUnderlined(old(Entries(p)))
    {
      hide LinkAt, IsPath, Descending, Shaped, Node, OnlyUnderlined, Without;
      ghost var was := Entries(p);
      var q, r := xref[p], 0;
      ghost var i, k := 0, 0;
      HeadIs(xlink, owner, q, lists[p], p);
      DropStart(was);
      while q != 0
        invariant Linked() && OnlyListOf(p)
        invariant i <= |was| && Dropping(Entries(p), was, i, k)
        invariant q == Node(lists[p], k) && r == if k == 0 then 0 else lists[p][k - 1]
        decreases |was| - i
      {
        NodeIs(lists[p], k);
        NextIs(xlink, owner, xref[p], lists[p], p, k);
        DropStep(Entries(p), was, i, k);
        if num[q] < DEF {
          WithoutKeeps(lists[p], k);
          Unlink(p, r, q, k);
        } else {
          r := q;
          k := k + 1;
        }
        q := xlink[q];
        i := i + 1;
      }
      EndIs(xlink, owner, xref[p], lists[p], p, k);
      DropDone(Entries(p), was, i, k);
      assert old(InOrder(p));
      UnderlinedDescending(was, sectionCount);
      StillInOrder(p);
    }

    /** `section_check` for one name: never defined, and never used. */
    method CheckSection(p: nat) returns (undefined: bool, unused: bool)
      requires Valid() && p < |xref| && isSection[p]
      ensures undefined <==> forall x :: x in Entries(p) ==> GroupOf(x) != 2
      ensures unused <==> forall x :: x in Entries(p) ==> GroupOf(x) != 0 && GroupOf(x) != 3
    {
      hide LinkAt, IsPath, Shaped, Node;
      ghost var l, e, k := lists[p], Entries(p), 0;
      var cur, output := xref[p], false;
      HeadIs(xlink, owner, cur, l, p);
      NodeIs(l, 0);
      NextIs(xlink, owner, xref[p], l, p, 0);
      if num[cur] == FILE {
        output := true;
        cur := xlink[cur];
        k := 1;
      }
      NodeIs(l, k);
      NextIs(xlink, owner, xref[p], l, p, k);
      undefined := num[cur] < DEF;
      ghost var k0 := k;
      while num[cur] >= CITE
        invariant k0 <= k <= |l| && cur == Node(l, k) && cur < |num| && num[cur] == if k < |l| then e[k] else 0
        invariant forall i :: k0 <= i < k ==> e[i] >= CITE
        decreases |l| - k
      {
        NodeIs(l, k);
        NextIs(xlink, owner, xref[p], l, p, k);
        NextIs(xlink, owner, xref[p], l, p, k + 1);
        NodeIs(l, k + 1);
        cur := xlink[cur];
        k := k + 1;
      }
      NodeIs(l, k);
      NextIs(xlink, owner, xref[p], l, p, k);
      unused := cur == 0 && !output;
      assert InOrder(p);
      CheckExact(e, sectionCount, k0, k);
    }
  }
}
