/** What the two tables of back-references hold (CPlusPlusMangle.cpp): the first ten names and the first ten types that
    were met, in that order, and nothing else. */
module WindowsTables {
  import opened WindowsMangling

  // ----- what was met, without a limit -----

  /** The different texts of a list, in the order in which they first occur. */
  function Firsts(xs: seq<string>): seq<string> {
    if xs == [] then []
    else
      var before := Firsts(xs[..|xs| - 1]);
      if xs[|xs| - 1] in before then before else before + [xs[|xs| - 1]]
  }

  function UpToTen(xs: seq<string>): seq<string> {
    if |xs| <= 10 then xs else xs[..10]
  }

  /** The names in a list of types. */
  function NamesIn(shapes: seq<Shape>): seq<string> {
    if shapes == [] then []
    else NamesIn(shapes[..|shapes| - 1]) + match shapes[|shapes| - 1].base
                                           case Code(_) => []
                                           case Named(_, names) => names
  }

  /** The full texts of those types in a list that take at least two characters. */
  function LongTexts(shapes: seq<Shape>, mode: string): seq<string> {
    if shapes == [] then []
    else
      var text := FullText(shapes[|shapes| - 1], mode);
      LongTexts(shapes[..|shapes| - 1], mode) + if |text| >= 2 then [text] else []
  }

  // ----- the tables -----

  lemma {:induction false} FirstsDistinct(xs: seq<string>)
    ensures Distinct(Firsts(xs)) && (forall x :: x in Firsts(xs) <==> x in xs)
    decreases |xs|
  {
    if xs != [] {
      FirstsDistinct(xs[..|xs| - 1]);
      assert xs == xs[..|xs| - 1] + [xs[|xs| - 1]];
    }
  }

  lemma TableIsOk(xs: seq<string>)
    ensures TableOk(UpToTen(Firsts(xs)))
  {
    FirstsDistinct(xs);
  }

  /** Looking up one more text. */
  lemma EnteredExactly(xs: seq<string>, x: string)
    ensures Entered(UpToTen(Firsts(xs)), x) == UpToTen(Firsts(xs + [x]))
  {
    assert (xs + [x])[..|xs|] == xs;
  }

  /** Looking up many names. */
  lemma {:induction false} NamesEntered(xs: seq<string>, names: seq<string>)
    ensures TableOk(UpToTen(Firsts(xs)))
    ensures EnteredAll(UpToTen(Firsts(xs)), names) == UpToTen(Firsts(xs + names))
    decreases |names|
  {
    TableIsOk(xs);
    if names == [] {
      assert xs + names == xs;
    } else {
      EnteredExactly(xs, names[0]);
      NamesEntered(xs + [names[0]], names[1..]);
      assert xs + [names[0]] + names[1..] == xs + names;
    }
  }

  /** The tables after a list of types. */
  function AfterTypes(shapes: seq<Shape>, mode: string, st: State): (r: State)
    requires StateOk(st)
    ensures StateOk(r)
    decreases |shapes|
  {
    if shapes == [] then st else AfterTypes(shapes[1..], mode, AfterType(shapes[0], mode, st))
  }

  lemma {:induction false} AfterLast(shapes: seq<Shape>, s: Shape, mode: string, st: State)
    requires StateOk(st)
    ensures AfterTypes(shapes + [s], mode, st) == AfterType(s, mode, AfterTypes(shapes, mode, st))
    decreases |shapes|
  {
    hide AfterType;
    if shapes == [] {
      assert (shapes + [s])[1..] == [];
    } else {
      AfterLast(shapes[1..], s, mode, AfterType(shapes[0], mode, st));
      assert (shapes + [s])[1..] == shapes[1..] + [s];
    }
  }

  ghost predicate Holds(st: State, names: seq<string>, texts: seq<string>) {
    st.names == UpToTen(Firsts(names)) && st.types == UpToTen(Firsts(texts))
  }

  /** One more type. */
  lemma ListsGrow(shapes: seq<Shape>, s: Shape, mode: string)
    ensures NamesIn(shapes + [s]) == NamesIn(shapes) + BaseNames(s.base)
    ensures LongTexts(shapes + [s], mode)
            == LongTexts(shapes, mode) + if |FullText(s, mode)| >= 2 then [FullText(s, mode)] else []
  {
    assert (shapes + [s])[..|shapes|] == shapes;
    hide FullText;
  }

  lemma AfterTypeIs(s: Shape, mode: string, st: State)
    requires StateOk(st)
    ensures AfterType(s, mode, st).names == EnteredAll(st.names, BaseNames(s.base))
    ensures AfterType(s, mode, st).types
            == if |FullText(s, mode)| < 2 then st.types else Entered(st.types, FullText(s, mode))
  {
    hide FullText, EnteredAll, Entered;
  }

  lemma HoldsNext(st: State, names: seq<string>, shapes: seq<Shape>, s: Shape, mode: string)
    requires StateOk(st) && Holds(st, names + NamesIn(shapes), LongTexts(shapes, mode))
    ensures Holds(AfterType(s, mode, st), names + NamesIn(shapes + [s]), LongTexts(shapes + [s], mode))
  {
    hide Firsts, FullText, EnteredAll, Entered, UpToTen, LongTexts, NamesIn, AfterType;
    NamesEntered(names + NamesIn(shapes), BaseNames(s.base));
    ListsGrow(shapes, s, mode);
    AfterTypeIs(s, mode, st);
    assert names + NamesIn(shapes) + BaseNames(s.base) == names + NamesIn(shapes + [s]);
    assert LongTexts(shapes, mode) + [] == LongTexts(shapes, mode);
    EnteredExactly(LongTexts(shapes, mode), FullText(s, mode));
  }

  lemma HoldsFirst(st: State, names: seq<string>, mode: string)
    requires StateOk(st) && Holds(st, names, [])
    ensures Holds(AfterTypes([], mode, st), names + NamesIn([]), LongTexts([], mode))
  {
    assert names + NamesIn([]) == names;
  }

  /** After any types the tables hold the first ten different names and the first ten different long texts. */
  lemma {:induction false} TablesExactly(before: seq<string>, shapes: seq<Shape>, mode: string, st: State)
    requires StateOk(st) && Holds(st, before, [])
    ensures Holds(AfterTypes(shapes, mode, st), before + NamesIn(shapes), LongTexts(shapes, mode))
    decreases |shapes|
  {
    hide *;
    if shapes == [] {
      HoldsFirst(st, before, mode);
    } else {
      var earlier, s := shapes[..|shapes| - 1], shapes[|shapes| - 1];
      assert shapes == earlier + [s];
      TablesExactly(before, earlier, mode, st);
      AfterLast(earlier, s, mode, st);
      HoldsNext(AfterTypes(earlier, mode, st), before, earlier, s, mode);
    }
  }

  /** The text of a list of types is that of each in turn, with the tables its predecessors leave. */
  lemma {:induction false} TypesTextAt(shapes: seq<Shape>, mode: string, st: State, k: nat)
    requires StateOk(st) && k < |shapes|
    ensures TypesText(shapes, mode, st)
            == TypesText(shapes[..k], mode, st) + TypeText(shapes[k], mode, AfterTypes(shapes[..k], mode, st))
               + TypesText(shapes[k + 1..], mode, AfterTypes(shapes[..k + 1], mode, st))
    decreases k
  {
    hide TypeText, AfterType;
    if k > 0 {
      var st1 := AfterType(shapes[0], mode, st);
      TypesTextAt(shapes[1..], mode, st1, k - 1);
      assert shapes[..k][1..] == shapes[1..][..k - 1];
      assert shapes[..k + 1][1..] == shapes[1..][..k];
      assert shapes[1..][k..] == shapes[k + 1..];
    } else {
      assert shapes[..1][1..] == [];
    }
  }

  /** A type of a signature comes out as the digit of its slot exactly if it is one of the first ten different long
      texts before it; and otherwise with the first ten different names before it as back-references. The result comes
      before the arguments. */
  lemma SlotsExactly(sig: Signature, shapes: seq<Shape>, mode: string, k: nat)
    requires k < |shapes|
    ensures TableOk(EnteredAll([], Prefix(sig)))
    ensures var st := AfterTypes(shapes[..k], mode, State(EnteredAll([], Prefix(sig)), []));
            var slots := UpToTen(Firsts(LongTexts(shapes[..k], mode)));
            var full, text := FullText(shapes[k], mode), TypeText(shapes[k], mode, st);
            && (forall i | 0 <= i < |slots| && slots[i] == full :: text == [Digit(i)])
            && (full !in slots && |full| >= 2 ==> text == SubText(shapes[k], mode, st.names))
            && (|full| < 2 ==> text == full)
            && st.names == UpToTen(Firsts(Prefix(sig) + NamesIn(shapes[..k])))
  {
    var st0 := State(EnteredAll([], Prefix(sig)), []);
    NamesEntered([], Prefix(sig));
    assert [] + Prefix(sig) == Prefix(sig);
    TablesExactly(Prefix(sig), shapes[..k], mode, st0);
    SlotText(shapes[k], mode, AfterTypes(shapes[..k], mode, st0), Prefix(sig) + NamesIn(shapes[..k]), shapes[..k]);
    hide Firsts, FullText, SubText, EnteredAll, AfterTypes, LongTexts, NamesIn, Prefix, TypeText, UpToTen;
  }

  lemma SlotText(s: Shape, mode: string, st: State, names: seq<string>, shapes: seq<Shape>)
    requires StateOk(st) && Holds(st, names, LongTexts(shapes, mode))
    ensures var full, text := FullText(s, mode), TypeText(s, mode, st);
            && (forall i | 0 <= i < |st.types| && st.types[i] == full :: text == [Digit(i)])
            && (full !in st.types && |full| >= 2 ==> text == SubText(s, mode, st.names))
            && (|full| < 2 ==> text == full)
  {
    LongOnly(shapes, mode);
    FirstsDistinct(LongTexts(shapes, mode));
    assert forall x | x in st.types :: x in LongTexts(shapes, mode);
    hide Firsts, FullText, SubText, LongTexts, UpToTen;
  }

  lemma {:induction false} LongOnly(shapes: seq<Shape>, mode: string)
    ensures forall x | x in LongTexts(shapes, mode) :: |x| >= 2
    decreases |shapes|
  {
    if shapes != [] {
      LongOnly(shapes[..|shapes| - 1], mode);
    }
  }
}
