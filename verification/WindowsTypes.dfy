/** Mangled names tell C++ types apart: a reader with its own table of codes recovers every type, and two signatures
    have the same mangled name exactly if they are the same function. */
module WindowsTypes {
  import opened Wrappers
  import opened WindowsMangling
  import opened WindowsDemangling
  import opened WindowsRoundTrip

  // ----- what a type says -----

  /** The fundamental types of C++ that have names here. */
  datatype Word = Void | Truth | Character | Signed(bits: nat) | Unsigned(bits: nat) | Real(bits: nat)

  /** A fundamental type, or one that is declared somewhere: its name, then what it is in, from the inside out. */
  datatype What = Fundamental(word: Word) | Declared(kind: Kind, path: seq<string>)

  /** What a type is without codes; None where it has no name. */
  function WordOf(t: Type): Option<Word>
    requires !t.Handle?
  {
    match t
    case Int(bits) => if bits in {8, 16, 32, 64} then Some(Signed(bits)) else None
    case UInt(bits) =>
      if bits == 1 then Some(Truth) else if bits in {8, 16, 32, 64} then Some(Unsigned(bits)) else None
    case Float(bits) => if bits in {32, 64} then Some(Real(bits)) else None
  }

  /** The names of the fundamental types. */
  function WordNamed(name: string): Option<Word> {
    if name == "void" then Some(Void)
    else if name == "bool" then Some(Truth)
    else if name == "char" then Some(Character)
    else if name == "float" then Some(Real(32))
    else if name == "double" then Some(Real(64))
    else if name == "int8_t" then Some(Signed(8))
    else if name == "int16_t" then Some(Signed(16))
    else if name == "int32_t" then Some(Signed(32))
    else if name == "int64_t" then Some(Signed(64))
    else if name == "uint8_t" then Some(Unsigned(8))
    else if name == "uint16_t" then Some(Unsigned(16))
    else if name == "uint32_t" then Some(Unsigned(32))
    else if name == "uint64_t" then Some(Unsigned(64))
    else None
  }

  /** A handle without a type is a pointer to void. */
  function WhatOf(t: Type): Option<What> {
    if !t.Handle? then
      if WordOf(t).Some? then Some(Fundamental(WordOf(t).value)) else None
    else if t.h.None? then Some(Fundamental(Void))
    else
      var h := t.h.value;
      if h.kind.Simple? then
        if WordNamed(h.name).Some? then Some(Fundamental(WordNamed(h.name).value)) else None
      else Some(Declared(h.kind, [h.name] + Reverse(h.enclosing) + Reverse(h.namespaces)))
  }

  function ModifiersOf(t: Type): seq<Modifier> {
    if !t.Handle? then [] else if t.h.None? then [Modifier(false, false, false, true)] else t.h.value.modifiers
  }

  function RefOf(t: Type): Ref {
    if t.Handle? && t.h.Some? then t.h.value.ref else NotReference
  }

  // ----- the reader's table -----

  /** The codes of the fundamental types, as a reader knows them. */
  function ReadWord(code: string): Option<Word> {
    match code
    case "X" => Some(Void)
    case "_N" => Some(Truth)
    case "D" => Some(Character)
    case "C" => Some(Signed(8))
    case "F" => Some(Signed(16))
    case "H" => Some(Signed(32))
    case "_J" => Some(Signed(64))
    case "E" => Some(Unsigned(8))
    case "G" => Some(Unsigned(16))
    case "I" => Some(Unsigned(32))
    case "_K" => Some(Unsigned(64))
    case "M" => Some(Real(32))
    case "N" => Some(Real(64))
    case _ => None
  }

  /** Different codes are different types. */
  lemma WordsDiffer(c: string, d: string)
    requires ReadWord(c).Some? && ReadWord(c) == ReadWord(d)
    ensures c == d
  {
  }

  /** Exactly the scalar types with a name have a code, and the reader takes it for that type. */
  lemma ScalarReads(t: Type)
    requires !t.Handle?
    ensures ScalarCode(t).Some? <==> WordOf(t).Some?
    ensures ScalarCode(t).Some? ==> ReadWord(ScalarCode(t).value) == WordOf(t)
  {
  }

  lemma SimpleReads(name: string)
    ensures SimpleCode(name).Some? <==> WordNamed(name).Some?
    ensures SimpleCode(name).Some? ==> ReadWord(SimpleCode(name).value) == WordNamed(name)
  {
  }

  // ----- qualifiers -----

  /** There are `k` pointers. */
  predicate Pointers(ms: seq<Modifier>, k: nat) {
    k <= |ms| && (forall i | 0 <= i < k :: ms[i].isPointer) && (k < |ms| ==> !ms[k].isPointer)
  }

  predicate SameCv(m: Modifier, n: Modifier) {
    m.isConst == n.isConst && m.isVolatile == n.isVolatile
  }

  /** Restrict says something only about what is neither const nor volatile. */
  predicate SameRestrict(m: Modifier, n: Modifier) {
    m.isConst || m.isVolatile || m.isRestrict == n.isRestrict
  }

  /** Two lists of modifiers say the same: equally many pointers, everything pointed or referred to qualified alike, and
      so are the pointers themselves. What follows the pointers, and how a plain value is qualified, does not count. */
  ghost predicate AlikeAt(ms: seq<Modifier>, ns: seq<Modifier>, ref: Ref, k: nat) {
    && Pointers(ms, k) && Pointers(ns, k)
    && (k > 0 || !ref.NotReference? ==>
          forall i | 0 <= i <= k :: SameCv(ModifierAt(ms, i), ModifierAt(ns, i)))
    && (forall i | 1 <= i <= k :: SameRestrict(ModifierAt(ms, i), ModifierAt(ns, i)))
  }

  ghost predicate Alike(ms: seq<Modifier>, ns: seq<Modifier>, ref: Ref) {
    exists k: nat :: AlikeAt(ms, ns, ref, k)
  }

  lemma DepthIs(ms: seq<Modifier>, k: nat)
    requires Pointers(ms, k)
    ensures Depth(ms) == k
  {
  }

  lemma CvTells(m: Modifier, n: Modifier)
    ensures CvOf(m) == CvOf(n) <==> SameCv(m, n)
    ensures CvOf(m).NoCv? <==> !m.isConst && !m.isVolatile
  {
  }

  lemma {:induction false} LevelsAt(ms: seq<Modifier>, k: nat, i: nat)
    requires i < k
    ensures Levels(ms, k)[i] == LevelAt(ms, k - 1 - i)
    decreases k
  {
    if i > 0 {
      LevelsAt(ms, k - 1, i - 1);
    }
  }

  lemma LevelsTell(ms: seq<Modifier>, ns: seq<Modifier>, k: nat)
    ensures Levels(ms, k) == Levels(ns, k) <==> forall i: nat | i < k :: LevelAt(ms, i) == LevelAt(ns, i)
  {
    forall i | 0 <= i < k ensures Levels(ms, k)[i] == LevelAt(ms, k - 1 - i) {
      LevelsAt(ms, k, i);
    }
    forall i | 0 <= i < k ensures Levels(ns, k)[i] == LevelAt(ns, k - 1 - i) {
      LevelsAt(ns, k, i);
    }
    if Levels(ms, k) == Levels(ns, k) {
      forall i: nat | i < k ensures LevelAt(ms, i) == LevelAt(ns, i) {
        assert Levels(ms, k)[k - 1 - i] == Levels(ns, k)[k - 1 - i];
      }
    }
  }

  lemma LevelTells(ms: seq<Modifier>, ns: seq<Modifier>, i: nat)
    ensures LevelAt(ms, i) == LevelAt(ns, i)
            <==> && SameCv(ModifierAt(ms, i), ModifierAt(ns, i))
                 && SameCv(ModifierAt(ms, i + 1), ModifierAt(ns, i + 1))
                 && SameRestrict(ModifierAt(ms, i + 1), ModifierAt(ns, i + 1))
  {
    CvTells(ModifierAt(ms, i), ModifierAt(ns, i));
    CvTells(ModifierAt(ms, i + 1), ModifierAt(ns, i + 1));
    CvTells(ModifierAt(ns, i + 1), ModifierAt(ms, i + 1));
  }

  /** The canonical qualifiers are equal exactly if the modifiers say the same. */
  lemma QualsTell(ms: seq<Modifier>, mr: Ref, ns: seq<Modifier>, nr: Ref)
    ensures QualsOf(ms, mr) == QualsOf(ns, nr) <==> mr == nr && Alike(ms, ns, mr)
  {
    var k := Depth(ms);
    assert Pointers(ms, k) && Pointers(ns, Depth(ns));
    if QualsOf(ms, mr) == QualsOf(ns, nr) {
      assert |Levels(ms, k)| == |Levels(ns, Depth(ns))|;
      QualsAtTell(ms, ns, mr, k);
      assert AlikeAt(ms, ns, mr, k);
    }
    if mr == nr && Alike(ms, ns, mr) {
      var j: nat :| AlikeAt(ms, ns, mr, j);
      DepthIs(ms, j);
      DepthIs(ns, j);
      QualsAtTell(ms, ns, mr, j);
    }
  }

  lemma QualsAtTell(ms: seq<Modifier>, ns: seq<Modifier>, ref: Ref, k: nat)
    requires Pointers(ms, k) && Pointers(ns, k) && Depth(ms) == k && Depth(ns) == k
    ensures QualsOf(ms, ref) == QualsOf(ns, ref) <==> AlikeAt(ms, ns, ref, k)
  {
    LevelsTell(ms, ns, k);
    forall i: nat | i < k
      ensures LevelAt(ms, i) == LevelAt(ns, i)
              <==> && SameCv(ModifierAt(ms, i), ModifierAt(ns, i))
                   && SameCv(ModifierAt(ms, i + 1), ModifierAt(ns, i + 1))
                   && SameRestrict(ModifierAt(ms, i + 1), ModifierAt(ns, i + 1))
    {
      LevelTells(ms, ns, i);
    }
    CvTells(ModifierAt(ms, k), ModifierAt(ns, k));
    hide LevelAt, Levels, Depth, CvOf;
    if AlikeAt(ms, ns, ref, k) {
      forall i: nat | i < k ensures LevelAt(ms, i) == LevelAt(ns, i) {
        assert SameCv(ModifierAt(ms, i), ModifierAt(ns, i)) && SameCv(ModifierAt(ms, i + 1), ModifierAt(ns, i + 1));
        assert SameRestrict(ModifierAt(ms, i + 1), ModifierAt(ns, i + 1));
      }
    }
    if forall i: nat | i < k :: LevelAt(ms, i) == LevelAt(ns, i) {
      forall i | 1 <= i <= k
        ensures SameRestrict(ModifierAt(ms, i), ModifierAt(ns, i)) && SameCv(ModifierAt(ms, i), ModifierAt(ns, i))
      {
        assert LevelAt(ms, i - 1) == LevelAt(ns, i - 1);
      }
      if k > 0 {
        assert LevelAt(ms, 0) == LevelAt(ns, 0);
      }
    }
  }

  // ----- types read back -----

  /** What a reader takes the base of a type for. */
  function ReadWhat(b: Base): Option<What> {
    match b
    case Code(c) => if ReadWord(c).Some? then Some(Fundamental(ReadWord(c).value)) else None
    case Named(k, names) => Some(Declared(k, names))
  }

  /** Exactly the types with a name can be mangled, and a reader takes the base for what it is, under the qualifiers. */
  lemma ShapeReadsAs(t: Type)
    ensures ShapeOf(t).Some? <==> WhatOf(t).Some?
    ensures ShapeOf(t).Some? ==> ReadWhat(ShapeOf(t).value.base) == WhatOf(t)
                                 && ShapeOf(t).value.quals == QualsOf(ModifiersOf(t), RefOf(t))
  {
    if t.Handle? {
      SimpleReads(HandleOf(t).name);
    } else {
      ScalarReads(t);
    }
    hide Reverse;
  }

  lemma BaseTells(a: Base, b: Base)
    requires ReadWhat(a).Some? && ReadWhat(a) == ReadWhat(b)
    ensures a == b
  {
    if a.Code? && b.Code? {
      WordsDiffer(a.code, b.code);
    }
    hide ReadWord;
  }

  /** The same C++ type. */
  ghost predicate SameType(s: Type, t: Type) {
    && WhatOf(s).Some? && WhatOf(s) == WhatOf(t)
    && RefOf(s) == RefOf(t) && Alike(ModifiersOf(s), ModifiersOf(t), RefOf(s))
  }

  lemma ShapeTells(s: Type, t: Type)
    requires ShapeOf(s).Some? && ShapeOf(t).Some?
    ensures ShapeOf(s) == ShapeOf(t) <==> SameType(s, t)
  {
    ShapeReadsAs(s);
    ShapeReadsAs(t);
    QualsTell(ModifiersOf(s), RefOf(s), ModifiersOf(t), RefOf(t));
    hide ShapeOf, WhatOf, QualsOf, Alike, ReadWhat, ModifiersOf, RefOf;
    if WhatOf(s) == WhatOf(t) {
      BaseTells(ShapeOf(s).value.base, ShapeOf(t).value.base);
    }
  }

  /** A buffer is passed as a pointer to a halide_buffer_t. */
  function PassedAs(a: Arg): Type {
    match a
    case Expr(t) => t
    case Buffer =>
      Handle(Some(HandleType(Struct, "halide_buffer_t", [], [], [Modifier(false, false, false, true)], NotReference)))
  }

  ghost predicate SameTypes(a: seq<Arg>, b: seq<Arg>) {
    |a| == |b| && forall i | 0 <= i < |a| :: SameType(PassedAs(a[i]), PassedAs(b[i]))
  }

  ghost predicate SameFunction(a: Signature, b: Signature) {
    a.name == b.name && a.namespaces == b.namespaces && SameType(a.result, b.result) && SameTypes(a.args, b.args)
  }

  lemma {:induction false} ShapesTell(a: seq<Arg>, b: seq<Arg>)
    requires ShapesOf(a).Some? && ShapesOf(b).Some?
    ensures ShapesOf(a) == ShapesOf(b) <==> SameTypes(a, b)
    ensures |ShapesOf(a).value| == |a| && |ShapesOf(b).value| == |b|
    decreases |a| + |b|
  {
    if a != [] && b != [] {
      ShapesTell(a[1..], b[1..]);
      ShapeTells(PassedAs(a[0]), PassedAs(b[0]));
      hide SameType, ShapeOf;
      SameTypesStep(a, b);
      assert forall x: Shape, y: Shape, xs: seq<Shape>, ys: seq<Shape> {:trigger [x] + xs, [y] + ys} ::
          [x] + xs == [y] + ys <==> x == y && xs == ys by {
        forall x: Shape, y: Shape, xs: seq<Shape>, ys: seq<Shape> | [x] + xs == [y] + ys ensures x == y && xs == ys {
          assert ([x] + xs)[0] == ([y] + ys)[0] && ([x] + xs)[1..] == xs && ([y] + ys)[1..] == ys;
        }
      }
    } else if a != [] {
      ShapesTell(a[1..], b);
    } else if b != [] {
      ShapesTell(a, b[1..]);
    }
  }

  lemma SameTypesStep(a: seq<Arg>, b: seq<Arg>)
    requires a != [] && b != []
    ensures SameTypes(a, b) <==> SameType(PassedAs(a[0]), PassedAs(b[0])) && SameTypes(a[1..], b[1..])
  {
    hide SameType, PassedAs;
    if SameType(PassedAs(a[0]), PassedAs(b[0])) && SameTypes(a[1..], b[1..]) {
      forall i | 0 <= i < |a| ensures SameType(PassedAs(a[i]), PassedAs(b[i])) {
        if i > 0 {
          assert a[1..][i - 1] == a[i] && b[1..][i - 1] == b[i];
        }
      }
    }
    if SameTypes(a, b) {
      forall i | 0 <= i < |a[1..]| ensures SameType(PassedAs(a[1..][i]), PassedAs(b[1..][i])) {
        assert a[1..][i] == a[i + 1] && b[1..][i] == b[i + 1];
      }
    }
  }

  /** The reader recovers the name, the namespaces, and for the result and every argument what it is and how it is
      qualified. */
  lemma TypesRoundTrip(sig: Signature, is64Bit: bool)
    requires SignatureNamed(sig) && Mangled(sig, is64Bit).Some?
    ensures var m := Demangled(Mangled(sig, is64Bit).value, is64Bit);
            && m.Some? && m.value.name == sig.name && m.value.namespaces == sig.namespaces
            && ReadsAs(m.value.result, sig.result) && |m.value.args| == |sig.args|
            && forall i | 0 <= i < |sig.args| :: ReadsAs(m.value.args[i], PassedAs(sig.args[i]))
  {
    RoundTrip(sig, is64Bit);
    ShapeReadsAs(sig.result);
    ArgsReadAs(sig.args);
    hide Mangled, Demangled, ShapeOf, ShapesOf, ReadsAs;
    assert ReadsAs(ShapeOf(sig.result).value, sig.result) by {
      ResultReadsAs(sig.result);
    }
  }

  ghost predicate ReadsAs(s: Shape, t: Type) {
    WhatOf(t).Some? && ReadWhat(s.base) == WhatOf(t) && s.quals == QualsOf(ModifiersOf(t), RefOf(t))
  }

  lemma ResultReadsAs(t: Type)
    requires ShapeOf(t).Some?
    ensures ReadsAs(ShapeOf(t).value, t)
  {
    ShapeReadsAs(t);
  }

  lemma {:induction false} ArgsReadAs(args: seq<Arg>)
    requires ShapesOf(args).Some?
    ensures |ShapesOf(args).value| == |args|
    ensures forall i | 0 <= i < |args| :: ReadsAs(ShapesOf(args).value[i], PassedAs(args[i]))
    decreases |args|
  {
    if args != [] {
      ResultReadsAs(PassedAs(args[0]));
      ArgsReadAs(args[1..]);
      hide ShapeOf, ReadsAs;
    }
  }

  /** Two signatures have the same mangled name exactly if they are the same function: the same name and namespaces, and
      the same C++ types. */
  lemma SameNameExactly(a: Signature, b: Signature, is64Bit: bool)
    requires SignatureNamed(a) && SignatureNamed(b) && Mangled(a, is64Bit).Some? && Mangled(b, is64Bit).Some?
    ensures Mangled(a, is64Bit) == Mangled(b, is64Bit) <==> SameFunction(a, b)
  {
    ShapeTells(a.result, b.result);
    ShapesTell(a.args, b.args);
    if Mangled(a, is64Bit) == Mangled(b, is64Bit) {
      SameNameSameFunction(a, b, is64Bit);
    }
    hide ShapeOf, ShapesOf, SameType, SameTypes, ArgsText, TypeText, AfterType;
  }

  /** Exactly the signatures whose types all have a name can be mangled. */
  lemma {:induction false} MangledExactly(sig: Signature, is64Bit: bool)
    ensures Mangled(sig, is64Bit).Some?
            <==> WhatOf(sig.result).Some? && forall a | a in sig.args :: WhatOf(PassedAs(a)).Some?
  {
    ShapeReadsAs(sig.result);
    ArgsMangled(sig.args);
    hide WhatOf, ShapeOf, ShapesOf, ArgsText, TypeText, AfterType;
  }

  lemma {:induction false} ArgsMangled(args: seq<Arg>)
    ensures ShapesOf(args).Some? <==> forall a | a in args :: WhatOf(PassedAs(a)).Some?
    decreases |args|
  {
    if args != [] {
      ShapeReadsAs(PassedAs(args[0]));
      ArgsMangled(args[1..]);
      hide WhatOf, ShapeOf;
      assert forall a :: a in args <==> a == args[0] || a in args[1..];
    }
  }
}
