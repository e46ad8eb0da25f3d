/**
 One section reference, written out: what stands in its place.
 */
module TangleReference {
  import opened TangleTokens
  import opened TangleExpand

  /** Tokens that are written as they are. */
  ghost predicate Literal(ys: seq<Item>) {
    forall i :: 0 <= i < |ys| ==> !ys[i].SecRef? && !ys[i].SecNum? && !ys[i].Defs?
  }

  function Emitted(ys: seq<Item>): seq<Out> {
    seq(|ys|, i requires 0 <= i < |ys| => Emit(ys[i]))
  }

  lemma {:induction false} LiteralStretch(T: Tables, t: nat, pos: nat, q: nat, section: nat, room: nat)
    requires T.Valid() && T.IsCode(t) && pos <= q <= |T.items[t]| && Literal(T.items[t][pos..q])
    ensures Expand(T, t, pos, section, room) == Result(Emitted(T.items[t][pos..q]), true).Then(Expand(T, t, q, section, room))
    decreases q - pos
  {
    hide Expand;
    var ys := T.items[t][pos..q];
    var rest := Expand(T, t, q, section, room);
    if pos < q {
      assert ys[0] == T.items[t][pos] && ys[1..] == T.items[t][pos + 1..q];
      LiteralTurn(T, t, pos, section, room);
      LiteralStretch(T, t, pos + 1, q, section, room);
      assert Emitted(ys) == [Emit(ys[0])] + Emitted(ys[1..]);
      assert [Emit(ys[0])] + (Emitted(ys[1..]) + rest.out) == Emitted(ys) + rest.out;
    } else {
      assert Emitted(ys) == [];
      assert Emitted(ys) + rest.out == rest.out;
    }
  }

  lemma LiteralTurn(T: Tables, t: nat, pos: nat, section: nat, room: nat)
    requires T.Valid() && T.IsCode(t) && pos < |T.items[t]|
    requires !T.items[t][pos].SecRef? && !T.items[t][pos].SecNum? && !T.items[t][pos].Defs?
    ensures Expand(T, t, pos, section, room)
      == Result([Emit(T.items[t][pos])], true).Then(Expand(T, t, pos + 1, section, room))
  {
  }

  lemma LiteralEnds(T: Tables, t: nat, n: nat, section: nat, room: nat)
    requires T.Valid() && T.IsCode(t) && 0 < n && 0 < |T.items[t]| && T.items[t][0] == SecNum(n)
    ensures Expand(T, t, 0, section, room) == Result([Open(n)], true).Then(Expand(T, t, 1, n, room))
    ensures Expand(T, t, |T.items[t]|, n, room)
      == Result([Close(n)], true).Then(if T.Continues(t) then Expand(T, T.link[t], 0, n, room) else Result([], true))
  {
  }

  /** A text without references. */
  lemma {:induction false} LiteralText(T: Tables, t: nat, n: nat, ys: seq<Item>, section: nat, room: nat)
    requires T.Valid() && T.IsCode(t) && 0 < n && Literal(ys) && T.items[t] == [SecNum(n)] + ys
    ensures Expand(T, t, 0, section, room)
      == Result([Open(n)] + Emitted(ys) + [Close(n)], true).Then(if T.Continues(t) then Expand(T, T.link[t], 0, n, room) else Result([], true))
  {
    hide Expand, Literal, Emitted;
    var end := |T.items[t]|;
    assert T.items[t][0] == SecNum(n) && T.items[t][1..end] == ys;
    LiteralEnds(T, t, n, section, room);
    LiteralStretch(T, t, 1, end, n, room);
    Marked3([Open(n)], Emitted(ys), [Close(n)], if T.Continues(t) then Expand(T, T.link[t], 0, n, room).out else []);
  }

  lemma Marked3(a: seq<Out>, b: seq<Out>, c: seq<Out>, d: seq<Out>)
    ensures a + (b + (c + d)) == a + b + c + d
  {
  }

  /**
   A text of section n with one reference, to a name with two texts, of sections k and l: the
   tokens of both stand in place of the reference, each text between its marks.
   */
  lemma OneReference(T: Tables, t: nat, n: nat, ys: seq<Item>, m: nat, zs: seq<Item>, k: nat, us: seq<Item>, l: nat, ws: seq<Item>,
                     section: nat, room: nat)
    requires T.Valid() && T.IsCode(t) && 0 < n && 0 < k && 0 < l && 0 < room && m < |T.equiv| && T.equiv[m] != 0
    requires Literal(ys) && Literal(zs) && Literal(us) && Literal(ws)
    requires T.items[t] == [SecNum(n)] + ys + [SecRef(m)] + zs && !T.Continues(t)
    requires T.items[T.equiv[m]] == [SecNum(k)] + us && T.Continues(T.equiv[m])
    requires var u := T.link[T.equiv[m]]; T.items[u] == [SecNum(l)] + ws && !T.Continues(u)
    ensures Expand(T, t, 0, section, room)
      == Result([Open(n)] + Emitted(ys) + ([Open(k)] + Emitted(us) + [Close(k)]) + ([Open(l)] + Emitted(ws) + [Close(l)])
                + Emitted(zs) + [Close(n)], true)
  {
    hide Expand;
    var p, end, u := 1 + |ys|, |T.items[t]|, T.link[T.equiv[m]];
    var first, second := [Open(k)] + Emitted(us) + [Close(k)], [Open(l)] + Emitted(ws) + [Close(l)];
    LiteralText(T, u, l, ws, k, room - 1);
    LiteralText(T, T.equiv[m], k, us, 0, room - 1);
    assert second + [] == second;
    assert T.items[t][1..p] == ys && T.items[t][p] == SecRef(m) && T.items[t][p + 1..end] == zs;
    LiteralStretch(T, t, p + 1, end, n, room);
    LiteralStretch(T, t, 1, p, n, room);
    OneReferenceTurns(T, t, n, m, section, room, p);
    var a := Emitted(zs) + [Close(n)];
    assert first + second + a == (first + second) + a;
    assert [Open(n)] + (Emitted(ys) + ((first + second) + a))
        == [Open(n)] + Emitted(ys) + first + second + Emitted(zs) + [Close(n)];
  }

  /** The turns that are not literal. */
  lemma OneReferenceTurns(T: Tables, t: nat, n: nat, m: nat, section: nat, room: nat, p: nat)
    requires T.Valid() && T.IsCode(t) && 0 < n && 0 < room && m < |T.equiv| && T.equiv[m] != 0 && 0 < p < |T.items[t]|
    requires T.items[t][0] == SecNum(n) && T.items[t][p] == SecRef(m) && !T.Continues(t)
    ensures Expand(T, t, 0, section, room) == Result([Open(n)], true).Then(Expand(T, t, 1, n, room))
    ensures Expand(T, t, p, n, room) == Expand(T, T.equiv[m], 0, 0, room - 1).Then(Expand(T, t, p + 1, n, room))
    ensures Expand(T, t, |T.items[t]|, n, room) == Result([Close(n)], true)
  {
  }
}
