/**
 CTANGLE from end to end: the tables that phase one leaves are those that phase two expands
 (cweb/ctangle.c:609-670, 1446-1460).
 */
module TangleProgram {
  import TextChains
  import opened TangleTokens
  import opened TangleExpand

  /** The first text of each name, as a table; unnamed code has no name that could be referred to. */
  function Firsts(equiv: map<nat, nat>, names: nat): (r: seq<nat>)
    ensures |r| == names
  {
    seq(names, n requires 0 <= n < names => if n > 0 && n in equiv then equiv[n] else 0)
  }

  /** The items of each replacement text, read back from its bytes. */
  ghost function Decoded(bytes: seq<Bytes>): (items: seq<seq<Item>>)
    ensures |items| == |bytes|
  {
    seq(|bytes|, t requires 0 <= t < |bytes| => Decode(bytes[t], Normal))
  }

  /** The tables of phase two: the links and first texts of phase one, and the bytes of each text. */
  ghost function TablesOf(L: TextChains.Linker, bytes: seq<Bytes>, names: nat): Tables
    reads L
  {
    Tables(Decoded(bytes), L.link, Firsts(L.equiv, names))
  }

  /** Every text was scanned, and refers to names of the directory; text 0 is empty. */
  ghost predicate Scanned(L: TextChains.Linker, bytes: seq<Bytes>, names: nat)
    reads L
  {
    && 0 < |bytes| == |L.link| && bytes[0] == [] && 0 < names
    && forall t :: 0 <= t < |bytes| ==> TextOk(Decode(bytes[t], Normal), names)
  }

  ghost predicate TextOk(items: seq<Item>, names: nat) {
    forall i :: 0 <= i < |items| ==> Known(items[i], names)
  }

  ghost predicate Known(x: Item, names: nat) {
    match x
    case SecRef(n) => 0 <= n < names
    case SecNum(n) => 0 < n
    case Broken => false
    case _ => true
  }

  /** What `scan_repl` stores is such a text, and is read back as it was stored. */
  lemma StoredTextOk(items: seq<Item>, names: nat)
    requires forall i :: 0 <= i < |items| ==> Storable(items[i]) && (items[i].SecRef? ==> items[i].n < names)
    ensures Decode(EncodeAll(items), Normal) == items && TextOk(Decode(EncodeAll(items), Normal), names)
  {
    RoundTrip(items);
  }

  /** After any history of sections, the tables are fit for expansion. */
  lemma LinkedTablesValid(L: TextChains.Linker, bytes: seq<Bytes>, names: nat)
    requires L.Valid() && Scanned(L, bytes, names)
    ensures TablesOf(L, bytes, names).Valid()
    ensures L.link[0] != 0 ==> TablesOf(L, bytes, names).IsCode(L.link[0])
  {
    hide TextChains.FirstFrom, TextChains.LinkOf, Decode;
    var T := TablesOf(L, bytes, names);
    forall t | 0 <= t < |T.link| && T.IsCode(t) && T.link[t] < |T.items| ensures T.IsCode(T.link[t]) {
      if t == 0 { RootIsCode(L, 0); } else { LinkLeadsToCode(L, t); }
    }
    forall n | 0 <= n < |T.equiv| ensures T.equiv[n] == 0 || T.IsCode(T.equiv[n]) {
      if n > 0 { RootIsCode(L, n); }
    }
    forall t, i | 0 <= t < |T.items| && 0 <= i < |T.items[t]| ensures T.ItemOk(T.items[t][i]) {
      assert TextOk(Decode(bytes[t], Normal), names);
      assert Known(T.items[t][i], names);
    }
    RootIsCode(L, 0);
  }

  lemma RootIsCode(L: TextChains.Linker, p: nat)
    requires L.Valid()
    ensures var t := TextChains.Root(L, p); t != 0 ==> t < |L.link| && t < L.link[t]
  {
    hide TextChains.LinkOf, TextChains.FirstFrom;
    TextChains.FirstInRange(L.history, TextChains.Code(p));
    var t := TextChains.Root(L, p);
    if t != 0 { CodeLinked(L, t); }
  }

  lemma CodeLinked(L: TextChains.Linker, t: nat)
    requires L.Valid() && 0 < t < |L.link| && L.history[t - 1].Code?
    ensures t < L.link[t]
  {
    TextChains.FirstFromMeans(L.history, t + 1, L.history[t - 1]);
  }

  lemma LinkLeadsToCode(L: TextChains.Linker, t: nat)
    requires L.Valid() && 0 < t < |L.link| && L.link[t] != 0
    ensures t < L.link[t] && (L.link[t] < |L.link| ==> L.link[t] < L.link[L.link[t]])
  {
    TextChains.FirstFromMeans(L.history, t + 1, L.history[t - 1]);
    if L.link[t] < |L.link| { CodeLinked(L, L.link[t]); }
  }

  // ----- Named output files -----

  /** The text with which an output file starts: text_info itself, if the name was never defined. */
  ghost function FileRoot(T: Tables, p: nat): nat
    requires p < |T.equiv|
  {
    T.equiv[p]
  }

  /** What is written to the file: section is the number left by what was written before. */
  ghost function FileText(T: Tables, p: nat, section: nat, room: nat): Result
    requires T.Valid() && p < |T.equiv| && T.IsCode(FileRoot(T, p))
  {
    Expand(T, FileRoot(T, p), 0, section, room)
  }

  /** A file can be written if its name was defined, or there is unnamed code. */
  lemma FileRootIsCode(L: TextChains.Linker, bytes: seq<Bytes>, names: nat, p: nat)
    requires L.Valid() && Scanned(L, bytes, names) && 0 < p < names
    ensures var T := TablesOf(L, bytes, names);
      T.Valid() && (T.IsCode(FileRoot(T, p)) <==> L.EquivOf(p) != 0 || L.link[0] != 0)
  {
    hide Decode, TextChains.FirstFrom, TextChains.LinkOf;
    LinkedTablesValid(L, bytes, names);
    RootIsCode(L, p);
  }

  /** The levels after n ends of texts. */
  ghost function PoppedFor(T: Tables, levels: seq<Level>, n: nat): seq<Level>
    decreases n
  {
    if n == 0 || levels == [] then levels
    else
      var l := levels[|levels| - 1];
      if l.repl < |T.link| && l.repl < |T.items| && l.pos == |T.items[l.repl]| then PoppedFor(T, Popped(T, levels), n - 1)
      else levels
  }

  /**
   If it was not defined and there is no unnamed code, the loop of phase two never ends: the
   empty text 0 is linked to itself.
   */
  lemma {:induction false} UndefinedFileLoops(L: TextChains.Linker, bytes: seq<Bytes>, names: nat, p: nat, section: nat, n: nat)
    requires L.Valid() && Scanned(L, bytes, names) && 0 < p < names && L.EquivOf(p) == 0 && L.link[0] == 0
    ensures var T := TablesOf(L, bytes, names); var l := Level(FileRoot(T, p), 0, section);
      PoppedFor(T, [l], n) == [l] && l.pos == |T.items[l.repl]|
  {
    var T := TablesOf(L, bytes, names);
    var l := Level(0, 0, section);
    assert T.items[0] == [] && Popped(T, [l]) == [l];
    if n > 0 { UndefinedFileLoops(L, bytes, names, p, section, n - 1); }
  }

  /** If it was not defined and there is unnamed code, the file has the unnamed code in it. */
  lemma UndefinedFileText(L: TextChains.Linker, bytes: seq<Bytes>, names: nat, p: nat, section: nat, room: nat)
    requires L.Valid() && Scanned(L, bytes, names) && 0 < p < names && L.EquivOf(p) == 0 && L.link[0] != 0
    ensures var T := TablesOf(L, bytes, names);
      && T.Valid() && T.IsCode(FileRoot(T, p)) && T.IsCode(L.link[0])
      && FileText(T, p, section, room)
         == Result(if section == 0 then [] else [Close(section)], true).Then(Expand(T, L.link[0], 0, section, room))
  {
    LinkedTablesValid(L, bytes, names);
    FileRootIsCode(L, bytes, names, p);
  }

  /** If it was defined, the file has just its texts, whatever was written before. */
  lemma DefinedFileText(L: TextChains.Linker, bytes: seq<Bytes>, names: nat, p: nat, section: nat, room: nat)
    requires L.Valid() && Scanned(L, bytes, names) && 0 < p < names && L.EquivOf(p) != 0
    requires Marked(TablesOf(L, bytes, names))
    ensures var T := TablesOf(L, bytes, names);
      && T.Valid() && T.IsCode(L.EquivOf(p)) && T.IsCode(FileRoot(T, p))
      && FileText(T, p, section, room) == Expand(T, L.EquivOf(p), 0, 0, room)
  {
    hide Expand, Marked, Decode;
    FileRootIsCode(L, bytes, names, p);
    var T := TablesOf(L, bytes, names);
    ExpandStart(T, T.equiv[p], section, room);
    ExpandStart(T, T.equiv[p], 0, room);
  }

  // ----- Phase two -----

  /** The C file: the macros, unless the source says where they go, and the unnamed code. */
  ghost function Program(T: Tables, root: nat, defsSeen: bool, size: nat): Result
    requires T.Valid() && 1 <= size && (root != 0 ==> T.IsCode(root))
  {
    (if defsSeen then Result([], true) else LeadingDefs(size))
    .Then(if root == 0 then Result([], true) else Expand(T, root, 0, 0, size - 1))
  }

  /** The macros come first if the source does not say where they go, and are not in front if it does. */
  lemma MacrosInFront(T: Tables, root: nat, defsSeen: bool, size: nat)
    requires T.Valid() && 2 <= size && Marked(T) && (root != 0 ==> T.IsCode(root))
    ensures var out := Program(T, root, defsSeen, size).out;
      if defsSeen then out == [] || out[0].Open? else out != [] && out[0] == DefsBlock && (|out| == 1 || out[1].Open?)
  {
    hide Expand, Marked;
    if root != 0 { ExpandStart(T, root, 0, size - 1); }
  }

  /** The first of the other files, each as its text says; only the last may have been cut short by an overflow. */
  ghost predicate FilesWritten(T: Tables, files: seq<nat>, others: seq<seq<Out>>, ok: bool, room: nat)
    requires T.Valid() && forall i :: 0 <= i < |files| ==> files[i] < |T.equiv| && T.IsCode(FileRoot(T, files[i]))
  {
    && |others| <= |files|
    && forall i :: 0 <= i < |others| ==> FileWritten(T, files[i], Result(others[i], ok || i < |others| - 1), room)
  }

  ghost predicate FileWritten(T: Tables, p: nat, r: Result, room: nat)
    requires T.Valid() && p < |T.equiv| && T.IsCode(FileRoot(T, p))
  {
    exists section: nat :: FileText(T, p, section, room) == r
  }

  /**
   What CTANGLE writes for any history of sections, when every output file was defined or there
   is unnamed code: the C file, and the files that were named, in the order in which they
   were first named. An overflow of the stack ends it all.
   */
  method WriteProgram(L: TextChains.Linker, bytes: seq<Bytes>, names: nat, files: seq<nat>, defsSeen: bool, size: nat)
      returns (main: seq<Out>, others: seq<seq<Out>>, ok: bool)
    requires L.Valid() && Scanned(L, bytes, names) && 1 <= size
    requires forall i :: 0 <= i < |files| ==> 0 < files[i] < names && (L.EquivOf(files[i]) != 0 || L.link[0] != 0)
    ensures TablesOf(L, bytes, names).Valid() && (L.link[0] != 0 ==> TablesOf(L, bytes, names).IsCode(L.link[0]))
    ensures forall i :: 0 <= i < |files| ==>
      TablesOf(L, bytes, names).IsCode(FileRoot(TablesOf(L, bytes, names), files[i]))
    ensures var T := TablesOf(L, bytes, names); var program := Program(T, L.link[0], defsSeen, size);
      && main == program.out
      && (!program.ok ==> !ok && others == [])
      && (program.ok ==> FilesWritten(T, files, others, ok, size - 1) && (ok ==> |others| == |files|))
  {
    hide Expand, Tables.Valid, Firsts, TextChains.FirstFrom, TextChains.LinkOf, Scanned, Decode, Tables.IsCode, LeadingDefs;
    LinkedTablesValid(L, bytes, names);
    forall i | 0 <= i < |files|
      ensures TablesOf(L, bytes, names).IsCode(FileRoot(TablesOf(L, bytes, names), files[i]))
    {
      FileRootIsCode(L, bytes, names, files[i]);
    }
    var items := DecodeAll(bytes);
    var T := Tables(items, L.link, Firsts(L.equiv, names));
    main, others, ok := [], [], true;
    var e := new Expander(T, size);
    assert e.out == [];
    ghost var first := if defsSeen then Result([], true) else LeadingDefs(size);
    if !defsSeen { ok := e.WriteDefs(); }
    ThenAssociative(Result([], true), Result([], true), first);
    assert Result(e.out, ok) == first;
    if ok && L.link[0] != 0 { ok := e.ExpandAll(L.link[0], 0); }
    main := e.out;
    if ok { others, ok := WriteFiles(e, files); }
  }

  method DecodeAll(bytes: seq<Bytes>) returns (items: seq<seq<Item>>)
    ensures items == Decoded(bytes)
  {
    hide Decode;
    items := [];
    while |items| < |bytes|
      invariant |items| <= |bytes| && forall t :: 0 <= t < |items| ==> items[t] == Decode(bytes[t], Normal)
    {
      var text := DecodeText(bytes[|items|]);
      items := items + [text];
    }
  }

  lemma OneFile(T: Tables, p: nat, section: nat, room: nat, r: Result)
    requires T.Valid() && p < |T.equiv| && T.IsCode(FileRoot(T, p))
    requires r == Result([], true).Then(Expand(T, T.equiv[p], 0, section, room))
    ensures FileWritten(T, p, r, room)
  {
    hide Expand;
    assert FileText(T, p, section, room) == r;
  }

  /** `writeloop`. */
  method WriteFiles(e: Expander, files: seq<nat>) returns (others: seq<seq<Out>>, ok: bool)
    requires e.T.Valid() && e.stackSize + 1 == e.stack.Length && 1 <= e.stackSize
    requires forall i :: 0 <= i < |files| ==> files[i] < |e.T.equiv| && e.T.IsCode(FileRoot(e.T, files[i]))
    modifies e, e.stack
    ensures FilesWritten(e.T, files, others, ok, e.stackSize - 1) && (ok ==> |others| == |files|)
  {
    hide Expand, Tables.Valid, Tables.IsCode, FileText;
    others, ok := [], true;
    while |others| < |files| && ok
      invariant FilesWritten(e.T, files, others, ok, e.stackSize - 1)
      decreases |files| - |others|, ok
    {
      var p, section := files[|others|], e.curSection;
      e.out := [];
      ok := e.ExpandAll(e.T.equiv[p], section);
      OneFile(e.T, p, section, e.stackSize - 1, Result(e.out, ok));
      others := others + [e.out];
    }
  }
}
