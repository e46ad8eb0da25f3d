/**
 How CTANGLE links replacement texts to the sections they belong to
 (cweb/ctangle.c:682-717, 1404-1405, 1446-1460).
 */
module TextChains {

  const FLAG := 2500  // section_flag, which is max_texts

  /** A finished replacement text: a macro, or C text for a name; name 0 is unnamed code. */
  datatype Event = Macro | Code(name: nat)

  function EventOf(h: seq<Event>, t: nat): Event
    requires 0 < t <= |h|
  {
    h[t - 1]
  }

  /** Text t is the result of event t-1; text 0 heads the unnamed code. */
  ghost function TextsFrom(h: seq<Event>, i: nat, e: Event): seq<nat>
    decreases |h| + 1 - i
  {
    if i == 0 || i > |h| then []
    else (if h[i - 1] == e then [i] else []) + TextsFrom(h, i + 1, e)
  }

  /** All texts of one kind, in source order. */
  ghost function Texts(h: seq<Event>, e: Event): seq<nat> {
    TextsFrom(h, 1, e)
  }

  /** The first text of that kind from i on, or the flag. */
  ghost function FirstFrom(h: seq<Event>, i: nat, e: Event): nat
    decreases |h| + 1 - i
  {
    if i == 0 || i > |h| then FLAG
    else if h[i - 1] == e then i
    else FirstFrom(h, i + 1, e)
  }

  lemma {:induction false} FirstFromMeans(h: seq<Event>, i: nat, e: Event)
    requires 0 < i && |h| < FLAG
    ensures var u := FirstFrom(h, i, e);
      && (u < FLAG ==> i <= u <= |h| && h[u - 1] == e)
      && (u < FLAG ==> forall k :: i <= k < u ==> EventOf(h, k) != e)
      && (u >= FLAG ==> u == FLAG && forall k :: i <= k <= |h| ==> EventOf(h, k) != e)
      && TextsFrom(h, i, e) == if u == FLAG then [] else [u] + TextsFrom(h, u + 1, e)
    decreases |h| + 1 - i
  {
    if i <= |h| && h[i - 1] != e {
      var u := FirstFrom(h, i + 1, e);
      FirstFromMeans(h, i + 1, e);
      assert TextsFrom(h, i, e) == TextsFrom(h, i + 1, e);
      hide TextsFrom, FirstFrom;
      forall k | i <= k <= |h| && k < u ensures EventOf(h, k) != e {
        if k == i { assert EventOf(h, k) == h[i - 1]; }
      }
    }
  }

  /** A later text becomes the first one only where there was none. */
  lemma {:induction false} FirstFromSnoc(h: seq<Event>, i: nat, e: Event, x: Event)
    requires 0 < i <= |h| + 1 < FLAG
    ensures FirstFrom(h + [x], i, e)
         == if FirstFrom(h, i, e) < FLAG then FirstFrom(h, i, e) else if x == e then |h| + 1 else FLAG
    decreases |h| + 1 - i
  {
    FirstFromMeans(h, i, e);
    if i <= |h| {
      FirstFromSnoc(h, i + 1, e, x);
    }
  }

  /** The chain of texts that starts at t: what `pop_level` walks through. */
  ghost function Chain(link: seq<nat>, t: nat): seq<nat>
    requires Forward(link)
    decreases |link| - t
  {
    if t == 0 || t >= |link| then [] else [t] + (if link[t] == 0 then [] else Chain(link, link[t]))
  }

  class Linker {
    var link: seq<nat>
    var equiv: map<nat, nat>
    var lastUnnamed: nat
    ghost var history: seq<Event>

    /** Where a name's texts start; 0 (text_info) when it has none. */
    function EquivOf(p: nat): nat
      reads this
    {
      if p in equiv then equiv[p] else 0
    }

    ghost predicate Valid()
      reads this
    {
      && |link| == |history| + 1 <= FLAG
      && link[0] == FirstOrZero(Code(0))
      && lastUnnamed < |link|
      && (lastUnnamed == 0 ==> link[0] == 0)
      && (lastUnnamed > 0 ==> history[lastUnnamed - 1] == Code(0) && link[lastUnnamed] == FLAG)
      && (forall p :: p > 0 ==> EquivOf(p) == FirstOrZero(Code(p)))
      && forall t :: 0 < t < |link| ==> link[t] == LinkOf(history, t)
    }

    ghost function FirstOrZero(e: Event): nat
      reads this
    {
      var u := FirstFrom(history, 1, e);
      if u < FLAG then u else 0
    }

    constructor ()
      ensures Valid() && history == []
    {
      link, equiv, lastUnnamed := [0], map[], 0;
      history := [];
    }

    /** A macro definition: `cur_text->text_link=0`. */
    method AddMacro()
      requires Valid() && |link| < FLAG
      modifies this
      ensures Valid() && history == old(history) + [Macro]
    {
      ghost var h := history;
      link := link + [0];
      history := history + [Macro];
      Extended(h, Macro);
      forall p ensures FirstOrZero(Code(p)) == old(FirstOrZero(Code(p))) { FirstFromSnoc(h, 1, Code(p), Macro); FirstFromMeans(h, 1, Code(p)); }
    }

    /** The walk to the last text of a name. */
    method LastText(p: nat) returns (q: nat)
      requires Valid() && p > 0 && EquivOf(p) != 0
      ensures 0 < q < |link| && history[q - 1] == Code(p) && link[q] == FLAG
    {
      hide FirstFrom, LinkOf;
      FirstInRange(history, Code(p));
      q := EquivOf(p);
      while link[q] < FLAG
        invariant 0 < q < |link| && history[q - 1] == Code(p)
        decreases |link| - q
      {
        LinkInRange(history, q);
        q := link[q];
      }
      LinkInRange(history, q);
    }

    /** C text for the name p (cweb/ctangle.c:1446-1460). */
    method AddCode(p: nat)
      requires Valid() && |link| < FLAG
      modifies this
      ensures Valid() && history == old(history) + [Code(p)]
    {
      hide FirstFrom, LinkOf;
      ghost var h := history;
      Extended(h, Code(p));
      FirstsAfter(h, p);
      FirstInRange(h, Code(p));
      var curText := |link|;
      ghost var last := 0;
      if p == 0 {
        last := lastUnnamed;
        link := link[lastUnnamed := curText];
        lastUnnamed := curText;
      } else if EquivOf(p) == 0 {
        equiv := equiv[p := curText];
      } else {
        var q := LastText(p);
        last := q;
        link := link[q := curText];
      }
      link := link + [FLAG];
      history := history + [Code(p)];
      forall t | 0 < t <= |h| && LinkOf(h, t) == FLAG && EventOf(h, t) == Code(p)
        ensures t == last
      {
        if last > 0 { LastIsUnique(h, t, last); }
      }
    }
  }

  /** Only one text of a name has no successor. */
  lemma LastIsUnique(h: seq<Event>, t: nat, u: nat)
    requires |h| < FLAG && 0 < t <= |h| && 0 < u <= |h| && h[t - 1] == h[u - 1] && h[t - 1].Code?
    requires LinkOf(h, t) == FLAG && LinkOf(h, u) == FLAG
    ensures t == u
  {
    FirstFromMeans(h, t + 1, h[t - 1]);
    FirstFromMeans(h, u + 1, h[u - 1]);
    assert EventOf(h, t) == EventOf(h, u);
  }

  /** The first text of x once another text of p has been added. */
  ghost function FirstWith(h: seq<Event>, p: nat, x: nat): nat {
    var u := FirstFrom(h, 1, Code(x));
    if u < FLAG then u else if x == p then |h| + 1 else FLAG
  }

  lemma FirstsAfter(h: seq<Event>, p: nat)
    requires |h| + 1 < FLAG
    ensures forall x :: FirstFrom(h + [Code(p)], 1, Code(x)) == FirstWith(h, p, x)
  {
    forall x ensures FirstFrom(h + [Code(p)], 1, Code(x)) == FirstWith(h, p, x) {
      FirstFromSnoc(h, 1, Code(x), Code(p));
    }
  }

  /** What the link of text t must be: 0 for a macro, else the next text of its name. */
  ghost function LinkOf(h: seq<Event>, t: nat): nat
    requires 0 < t <= |h|
  {
    if h[t - 1].Macro? then 0 else FirstFrom(h, t + 1, h[t - 1])
  }

  lemma LinkInRange(h: seq<Event>, t: nat)
    requires 0 < t <= |h| < FLAG && h[t - 1].Code?
    ensures LinkOf(h, t) <= FLAG
    ensures LinkOf(h, t) < FLAG ==> t < LinkOf(h, t) <= |h| && h[LinkOf(h, t) - 1] == h[t - 1]
  {
    FirstFromMeans(h, t + 1, h[t - 1]);
  }

  lemma FirstInRange(h: seq<Event>, e: Event)
    requires |h| < FLAG
    ensures 0 < FirstFrom(h, 1, e) <= FLAG
    ensures FirstFrom(h, 1, e) < FLAG ==> FirstFrom(h, 1, e) <= |h| && h[FirstFrom(h, 1, e) - 1] == e
    ensures FirstFrom(h, 1, e) == FLAG ==> forall t :: 0 < t <= |h| ==> EventOf(h, t) != e
  {
    FirstFromMeans(h, 1, e);
  }

  /** A new text changes only the link of the last one of its name. */
  lemma Extended(h: seq<Event>, x: Event)
    requires |h| + 1 < FLAG
    ensures forall t :: 0 < t <= |h| ==>
      LinkOf(h + [x], t) == if LinkOf(h, t) == FLAG && h[t - 1] == x then |h| + 1 else LinkOf(h, t)
    ensures LinkOf(h + [x], |h| + 1) == if x.Macro? then 0 else FLAG
  {
    forall t | 0 < t <= |h|
      ensures LinkOf(h + [x], t) == if LinkOf(h, t) == FLAG && h[t - 1] == x then |h| + 1 else LinkOf(h, t)
    {
      FirstFromSnoc(h, t + 1, h[t - 1], x);
      FirstFromMeans(h, t + 1, h[t - 1]);
    }
  }

  /** Links lead forward: the chains are acyclic and their indices increase. */
  ghost predicate Forward(link: seq<nat>) {
    forall u :: 0 <= u < |link| ==> link[u] == 0 || u < link[u]
  }

  /**
   The chain from a text of a name is that text and the later ones of the same name, in
   source order. So from equiv (or text_info, for unnamed code) a name's chain is exactly
   its texts; different names have disjoint chains, and each ends in section_flag.
   */
  lemma {:induction false} ChainExact(h: seq<Event>, link: seq<nat>, t: nat, e: Event)
    requires |link| == |h| + 1 <= FLAG && Forward(link)
    requires forall u :: 0 < u < |link| ==> link[u] == LinkOf(h, u)
    requires 0 < t < |link| && EventOf(h, t) == e && e.Code?
    ensures Chain(link, t) == TextsFrom(h, t, e)
    ensures var c := Chain(link, t); c != [] && c[|c| - 1] < |link| && link[c[|c| - 1]] == FLAG
    decreases |link| - t
  {
    FirstFromMeans(h, t + 1, e);
    if link[t] < FLAG {
      ChainExact(h, link, link[t], e);
      FirstFromMeans(h, link[t], e);
    }
  }

  lemma LinksForward(h: seq<Event>, link: seq<nat>)
    requires |link| == |h| + 1 <= FLAG && link[0] < |link| && (forall u :: 0 < u < |link| ==> link[u] == LinkOf(h, u))
    ensures Forward(link)
  {
    forall u | 0 < u < |link| ensures link[u] == 0 || u < link[u] {
      FirstFromMeans(h, u + 1, h[u - 1]);
    }
  }

  lemma MacrosUnlinked(h: seq<Event>, link: seq<nat>)
    requires |link| == |h| + 1 <= FLAG && (forall u :: 0 < u < |link| ==> link[u] == LinkOf(h, u))
    ensures forall t :: 0 < t < |link| ==> (link[t] == 0 <==> EventOf(h, t) == Macro)
  {
    forall u | 0 < u < |link| ensures link[u] == 0 <==> EventOf(h, u) == Macro {
      FirstFromMeans(h, u + 1, h[u - 1]);
    }
  }

  lemma ChainFromFirst(h: seq<Event>, link: seq<nat>, t: nat, e: Event)
    requires |link| == |h| + 1 <= FLAG && Forward(link) && e.Code?
    requires forall u :: 0 < u < |link| ==> link[u] == LinkOf(h, u)
    requires var f := FirstFrom(h, 1, e); t == if f < FLAG then f else 0
    ensures Chain(link, t) == Texts(h, e)
    ensures var c := Chain(link, t); c != [] ==> c[|c| - 1] < |link| && link[c[|c| - 1]] == FLAG
  {
    FirstFromMeans(h, 1, e);
    if t > 0 {
      ChainExact(h, link, t, e);
      FirstFromMeans(h, t, e);
    }
  }

  ghost predicate Increasing(c: seq<nat>) {
    forall j, k :: 0 <= j < k < |c| ==> c[j] < c[k]
  }

  /** The texts of one kind, each once and in order. */
  lemma {:induction false} TextsMeans(h: seq<Event>, i: nat, e: Event)
    requires 0 < i
    ensures forall t :: t in TextsFrom(h, i, e) <==> i <= t <= |h| && h[t - 1] == e
    ensures Increasing(TextsFrom(h, i, e))
    decreases |h| + 1 - i
  {
    hide Increasing;
    if i <= |h| {
      TextsMeans(h, i + 1, e);
      var rest := TextsFrom(h, i + 1, e);
      forall k | 0 <= k < |rest| ensures rest[k] > i { assert rest[k] in rest; }
      IncreasingCons(i, rest);
      assert [] + rest == rest;
    } else {
      IncreasingNone([]);
    }
  }

  lemma IncreasingCons(i: nat, rest: seq<nat>)
    requires Increasing(rest) && forall k :: 0 <= k < |rest| ==> rest[k] > i
    ensures Increasing([i] + rest)
  {
  }

  lemma IncreasingNone(c: seq<nat>)
    requires c == []
    ensures Increasing(c)
  {
  }

  /** Where the texts of a name start; name 0 is unnamed code. */
  ghost function Root(L: Linker, p: nat): nat
    requires L.link != []
    reads L
  {
    if p == 0 then L.link[0] else L.EquivOf(p)
  }

  /**
   From the state of the linker: the chain of every name is exactly its texts, with strictly
   increasing indices, and ends in section_flag; and which texts `output_defs` prints.
   */
  lemma ChainsExact(L: Linker, p: nat)
    requires L.Valid()
    ensures Forward(L.link)
    ensures Chain(L.link, Root(L, p)) == Texts(L.history, Code(p)) && Increasing(Chain(L.link, Root(L, p)))
    ensures forall t :: t in Chain(L.link, Root(L, p)) <==> 0 < t < |L.link| && EventOf(L.history, t) == Code(p)
    ensures var c := Chain(L.link, Root(L, p)); c != [] ==> c[|c| - 1] < |L.link| && L.link[c[|c| - 1]] == FLAG
    ensures forall t :: 0 < t < |L.link| ==> (L.link[t] == 0 <==> EventOf(L.history, t) == Macro)
  {
    hide Chain, FirstFrom, LinkOf, Forward, TextsFrom, Increasing;
    FirstInRange(L.history, Code(0));
    LinksForward(L.history, L.link);
    MacrosUnlinked(L.history, L.link);
    ChainFromFirst(L.history, L.link, Root(L, p), Code(p));
    TextsMeans(L.history, 1, Code(p));
  }

  /** Chains of different names share no text. */
  lemma ChainsDisjoint(L: Linker, p: nat, q: nat, t: nat)
    requires L.Valid() && p != q
    ensures Forward(L.link)
    ensures !(t in Chain(L.link, Root(L, p)) && t in Chain(L.link, Root(L, q)))
  {
    hide Chain, Root;
    ChainsExact(L, p);
    ChainsExact(L, q);
  }
}
