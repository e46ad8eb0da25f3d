/**
 Which tokens `get_output` delivers for a list, and in which mode: by ways through the references,
 without following the expansion.
 */
module WeaveWays {
  import opened ScrapText
  import opened WeaveOutput

  /** The way leads from the list to this token: into the reference at way[0], and on from there. */
  ghost predicate Reaches(texts: seq<seq<Token>>, ts: seq<Token>, way: seq<nat>, tok: Token)
    decreases |way|
  {
    && way != [] && way[0] < |ts|
    && var x := ts[way[0]];
       if |way| == 1 then x == tok && !x.Ref? && !x.Inner?
       else (x.Ref? || x.Inner?) && x.t < |texts| && Reaches(texts, texts[x.t], way[1..], tok)
  }

  /** The way passes an inner reference. */
  ghost predicate ThroughInner(texts: seq<seq<Token>>, ts: seq<Token>, way: seq<nat>)
    decreases |way|
  {
    && way != [] && way[0] < |ts|
    && var x := ts[way[0]];
       x.Inner? || (x.Ref? && x.t < |texts| && ThroughInner(texts, texts[x.t], way[1..]))
  }

  /** What is delivered of the token at the end of the way: in inner mode behind an inner reference, as deep as the way. */
  ghost predicate ComesBy(texts: seq<seq<Token>>, ts: seq<Token>, mode: Mode, level: nat, d: Delivery, way: seq<nat>) {
    && Reaches(texts, ts, way, d.tok)
    && d.mode == (if ThroughInner(texts, ts, way) then InnerMode else mode)
    && d.level + 1 == level + |way|
  }

  lemma WayIn(texts: seq<seq<Token>>, ts: seq<Token>, mode: Mode, level: nat, d: Delivery, way: seq<nat>, i: nat)
    requires i < |ts| && (ts[i].Ref? || ts[i].Inner?) && ts[i].t < |texts| && way != []
    ensures ComesBy(texts, ts, mode, level, d, [i] + way)
      <==> ComesBy(texts, texts[ts[i].t], if ts[i].Inner? then InnerMode else mode, level + 1, d, way)
  {
    assert ([i] + way)[1..] == way;
  }

  lemma WayOn(texts: seq<seq<Token>>, ts: seq<Token>, mode: Mode, level: nat, d: Delivery, way: seq<nat>)
    requires way != [] && ts != []
    ensures ComesBy(texts, ts[1..], mode, level, d, way) <==> ComesBy(texts, ts, mode, level, d, [way[0] + 1] + way[1..])
  {
    var way' := [way[0] + 1] + way[1..];
    assert way'[1..] == way[1..];
  }

  lemma {:induction false} DeliveredComes(texts: seq<seq<Token>>, ts: seq<Token>, mode: Mode, level: nat, bound: nat, d: Delivery)
      returns (way: seq<nat>)
    requires RefsLower(texts) && RefsBelow(ts, bound) && bound <= |texts| && d in Expand(texts, ts, mode, level, bound)
    ensures ComesBy(texts, ts, mode, level, d, way)
    decreases bound, |ts|
  {
    if d in ExpandToken(texts, ts[0], mode, level, bound) {
      if ts[0].Ref? || ts[0].Inner? {
        way := DeliveredComes(texts, texts[ts[0].t], if ts[0].Inner? then InnerMode else mode, level + 1, ts[0].t, d);
        WayIn(texts, ts, mode, level, d, way, 0);
        way := [0] + way;
      } else {
        way := [0];
      }
    } else {
      way := DeliveredComes(texts, ts[1..], mode, level, bound, d);
      WayOn(texts, ts, mode, level, d, way);
      way := [way[0] + 1] + way[1..];
    }
  }

  lemma {:induction false} ComesDelivered(texts: seq<seq<Token>>, ts: seq<Token>, mode: Mode, level: nat, bound: nat, d: Delivery,
                                          way: seq<nat>)
    requires RefsLower(texts) && RefsBelow(ts, bound) && bound <= |texts| && ComesBy(texts, ts, mode, level, d, way)
    ensures d in Expand(texts, ts, mode, level, bound)
    decreases bound, |ts|
  {
    if way[0] == 0 {
      if |way| > 1 {
        assert [0] + way[1..] == way;
        WayIn(texts, ts, mode, level, d, way[1..], 0);
        ComesDelivered(texts, texts[ts[0].t], if ts[0].Inner? then InnerMode else mode, level + 1, ts[0].t, d, way[1..]);
      }
    } else {
      var way' := [way[0] - 1] + way[1..];
      assert [way'[0] + 1] + way'[1..] == way;
      WayOn(texts, ts, mode, level, d, way');
      ComesDelivered(texts, ts[1..], mode, level, bound, d, way');
    }
  }

  /**
   A token is delivered if and only if a way of references leads to it; in inner mode if one of
   them is an inner one, otherwise in the mode of the list; and as many levels up as there are references.
   */
  lemma DeliveredExactly(texts: seq<seq<Token>>, ts: seq<Token>, mode: Mode, level: nat, d: Delivery)
    requires RefsLower(texts) && RefsBelow(ts, |texts|)
    ensures d in Expand(texts, ts, mode, level, |texts|) <==> exists way :: ComesBy(texts, ts, mode, level, d, way)
  {
    hide ComesBy;
    if d in Expand(texts, ts, mode, level, |texts|) {
      var way := DeliveredComes(texts, ts, mode, level, |texts|, d);
    }
    if way :| ComesBy(texts, ts, mode, level, d, way) {
      ComesDelivered(texts, ts, mode, level, |texts|, d, way);
    }
  }

  /** A reference in a list stands for its text: what is before and behind it comes before and behind. */
  lemma {:induction false} ReferenceInPlace(texts: seq<seq<Token>>, a: seq<Token>, x: Token, b: seq<Token>, mode: Mode, level: nat)
    requires (x.Ref? || x.Inner?) && x.t < |texts|
    ensures Expand(texts, a + [x] + b, mode, level, |texts|)
      == Expand(texts, a, mode, level, |texts|)
         + Expand(texts, texts[x.t], if x.Inner? then InnerMode else mode, level + 1, x.t) + Expand(texts, b, mode, level, |texts|)
    decreases |a|
  {
    if a == [] {
      assert (a + [x] + b)[0] == x && (a + [x] + b)[1..] == b;
    } else {
      assert (a + [x] + b)[0] == a[0] && (a + [x] + b)[1..] == a[1..] + [x] + b;
      ReferenceInPlace(texts, a[1..], x, b, mode, level);
    }
  }
}
