/** Windows function name mangling (CPlusPlusMangle.cpp) character by character: what is emitted for a signature,
    with back-references to the first ten names and the first ten types. */
module WindowsMangling {
  import opened Wrappers

  // ----- signatures -----

  datatype Modifier = Modifier(isConst: bool, isVolatile: bool, isRestrict: bool, isPointer: bool)

  const PLAIN := Modifier(false, false, false, false)
  const PTR_MODIFIER := Modifier(false, false, false, true)

  datatype Ref = NotReference | LValue | RValue

  datatype Kind = Simple | Struct | Class | Union | Enum

  /** `modifiers` is innermost first, `enclosing` and `namespaces` outermost first. */
  datatype HandleType = HandleType(kind: Kind, name: string, namespaces: seq<string>, enclosing: seq<string>,
                                   modifiers: seq<Modifier>, ref: Ref)

  datatype Type = Int(bits: nat) | UInt(bits: nat) | Float(bits: nat) | Handle(h: Option<HandleType>)

  datatype Arg = Expr(t: Type) | Buffer

  datatype Signature = Signature(name: string, namespaces: seq<string>, result: Type, args: seq<Arg>)

  const VOID_STAR := HandleType(Simple, "void", [], [], [PTR_MODIFIER], NotReference)
  const BUFFER_STAR := HandleType(Struct, "halide_buffer_t", [], [], [PTR_MODIFIER], NotReference)

  function ArgType(a: Arg): Type {
    if a.Expr? then a.t else Handle(Some(BUFFER_STAR))
  }

  function Reverse<T>(s: seq<T>): (r: seq<T>)
    ensures |r| == |s| && forall i | 0 <= i < |s| :: r[i] == s[|s| - 1 - i]
  {
    if s == [] then [] else Reverse(s[1..]) + [s[0]]
  }

  // ----- canonical types: what a mangled type says -----

  datatype Cv = NoCv | ConstOnly | VolatileOnly | ConstVolatile

  /** A pointer: whether it is itself const or volatile, or else restrict, and how its target is qualified. */
  datatype Level = Level(ptr: Cv, restrict: bool, target: Cv)

  /** `levels` is outermost first; `cv` qualifies what a reference refers to. */
  datatype Quals = Quals(ref: Ref, cv: Cv, levels: seq<Level>)

  datatype Base = Code(code: string) | Named(kind: Kind, names: seq<string>)

  datatype Shape = Shape(quals: Quals, base: Base)

  const NO_QUALS := Quals(NotReference, NoCv, [])

  function CvOf(m: Modifier): Cv {
    if m.isConst && m.isVolatile then ConstVolatile
    else if m.isConst then ConstOnly
    else if m.isVolatile then VolatileOnly
    else NoCv
  }

  /** Pointers from the inside out, until a modifier that is not a pointer. */
  function Depth(modifiers: seq<Modifier>): (k: nat)
    ensures k <= |modifiers|
    ensures forall i | 0 <= i < k :: modifiers[i].isPointer
    ensures k < |modifiers| ==> !modifiers[k].isPointer
  {
    if modifiers == [] || !modifiers[0].isPointer then 0 else 1 + Depth(modifiers[1..])
  }

  function ModifierAt(modifiers: seq<Modifier>, i: nat): Modifier {
    if i < |modifiers| then modifiers[i] else PLAIN
  }

  /** The i-th pointer from the inside. */
  function LevelAt(modifiers: seq<Modifier>, i: nat): Level {
    var outer := ModifierAt(modifiers, i + 1);
    Level(CvOf(outer), outer.isRestrict && CvOf(outer).NoCv?, CvOf(ModifierAt(modifiers, i)))
  }

  /** The pointers below `k`, outermost first. */
  function Levels(modifiers: seq<Modifier>, k: nat): (r: seq<Level>)
    ensures |r| == k
  {
    if k == 0 then [] else [LevelAt(modifiers, k - 1)] + Levels(modifiers, k - 1)
  }

  function QualsOf(modifiers: seq<Modifier>, ref: Ref): Quals {
    var k := Depth(modifiers);
    Quals(ref, if ref.NotReference? then NoCv else CvOf(ModifierAt(modifiers, k)), Levels(modifiers, k))
  }

  function SimpleCode(name: string): Option<string> {
    match name
    case "void" => Some("X")
    case "bool" => Some("_N")
    case "char" => Some("D")
    case "int8_t" => Some("C")
    case "uint8_t" => Some("E")
    case "int16_t" => Some("F")
    case "uint16_t" => Some("G")
    case "int32_t" => Some("H")
    case "uint32_t" => Some("I")
    case "int64_t" => Some("_J")
    case "uint64_t" => Some("_K")
    case "float" => Some("M")
    case "double" => Some("N")
    case _ => None
  }

  function ScalarCode(t: Type): Option<string> {
    match t
    case Int(8) => Some("C")
    case Int(16) => Some("F")
    case Int(32) => Some("H")
    case Int(64) => Some("_J")
    case UInt(1) => Some("_N")
    case UInt(8) => Some("E")
    case UInt(16) => Some("G")
    case UInt(32) => Some("I")
    case UInt(64) => Some("_K")
    case Float(32) => Some("M")
    case Float(64) => Some("N")
    case _ => None
  }

  function BaseOf(h: HandleType): Option<Base> {
    if h.kind.Simple? then
      if SimpleCode(h.name).Some? then Some(Code(SimpleCode(h.name).value)) else None
    else Some(Named(h.kind, [h.name] + Reverse(h.enclosing) + Reverse(h.namespaces)))
  }

  function HandleOf(t: Type): HandleType
    requires t.Handle?
  {
    if t.h.Some? then t.h.value else VOID_STAR
  }

  /** None where mangling is an error. */
  function ShapeOf(t: Type): Option<Shape> {
    if t.Handle? then
      var h := HandleOf(t);
      if BaseOf(h).Some? then Some(Shape(QualsOf(h.modifiers, h.ref), BaseOf(h).value)) else None
    else if ScalarCode(t).Some? then Some(Shape(NO_QUALS, Code(ScalarCode(t).value)))
    else None
  }

  function ShapesOf(args: seq<Arg>): Option<seq<Shape>> {
    if args == [] then Some([])
    else if ShapeOf(ArgType(args[0])).Some? && ShapesOf(args[1..]).Some? then
      Some([ShapeOf(ArgType(args[0])).value] + ShapesOf(args[1..]).value)
    else None
  }

  // ----- the text of a type -----

  function CvText(c: Cv): string {
    match c
    case NoCv => "A"
    case ConstOnly => "B"
    case VolatileOnly => "C"
    case ConstVolatile => "D"
  }

  function PtrText(l: Level, mode: string): string {
    match l.ptr
    case NoCv => if l.restrict then "P" + mode + "I" else "P" + mode
    case ConstOnly => "Q" + mode
    case VolatileOnly => "R" + mode
    case ConstVolatile => "S" + mode
  }

  function LevelText(l: Level, mode: string): (r: string)
    ensures |r| > 0
  {
    PtrText(l, mode) + CvText(l.target)
  }

  function LevelsText(levels: seq<Level>, mode: string): string {
    if levels == [] then "" else LevelText(levels[0], mode) + LevelsText(levels[1..], mode)
  }

  function RefText(q: Quals, mode: string): string {
    match q.ref
    case NotReference => ""
    case LValue => "A" + mode + CvText(q.cv)
    case RValue => "$$Q" + mode + CvText(q.cv)
  }

  function QualsText(q: Quals, mode: string): string {
    RefText(q, mode) + LevelsText(q.levels, mode)
  }

  function KindText(k: Kind): string {
    match k
    case Simple => ""
    case Struct => "U"
    case Class => "V"
    case Union => "T"
    case Enum => "W4"
  }

  function NamesText(names: seq<string>): string {
    if names == [] then "" else names[0] + "@" + NamesText(names[1..])
  }

  /** full_name: the type without back-references. */
  function FullText(s: Shape, mode: string): string {
    QualsText(s.quals, mode) +
    match s.base
    case Code(c) => c
    case Named(k, names) => KindText(k) + NamesText(names) + "@"
  }

  // ----- back-references -----

  function Digit(i: nat): char
    requires i < 10
  {
    "0123456789"[i]
  }

  /** Names or types in the order in which they were entered. */
  type Table = seq<string>

  predicate Distinct<T(==)>(s: seq<T>) {
    forall i, j | 0 <= i < j < |s| :: s[i] != s[j]
  }

  ghost predicate TableOk<T>(t: seq<T>) {
    |t| <= 10 && Distinct(t)
  }

  function IndexOf<T(==)>(t: seq<T>, x: T): (i: nat)
    requires x in t
    ensures i < |t| && t[i] == x
  {
    if t[0] == x then 0 else 1 + IndexOf(t[1..], x)
  }

  /** The table after `x` has been looked up. */
  function Entered<T(==)>(t: seq<T>, x: T): seq<T> {
    if x in t || |t| >= 10 then t else t + [x]
  }

  /** What is emitted for `x`: a digit if it is in the table, else `full`. */
  function Emitted(t: Table, x: string, full: string): string
    requires TableOk(t)
  {
    if x in t then [Digit(IndexOf(t, x))] else full
  }

  function NameText(t: Table, name: string): string
    requires TableOk(t)
  {
    Emitted(t, name, name + "@")
  }

  function EnteredAll(t: Table, names: seq<string>): (r: Table)
    requires TableOk(t)
    ensures TableOk(r)
    decreases |names|
  {
    if names == [] then t else EnteredAll(Entered(t, names[0]), names[1..])
  }

  function NameTexts(t: Table, names: seq<string>): string
    requires TableOk(t)
    decreases |names|
  {
    if names == [] then "" else NameText(t, names[0]) + NameTexts(Entered(t, names[0]), names[1..])
  }

  function BaseNames(b: Base): seq<string> {
    if b.Named? then b.names else []
  }

  /** with_substitutions: the type with back-references to names. */
  function SubText(s: Shape, mode: string, t: Table): string
    requires TableOk(t)
  {
    QualsText(s.quals, mode) +
    match s.base
    case Code(c) => c
    case Named(k, names) => KindText(k) + NameTexts(t, names) + "@"
  }

  /** The two tables. */
  datatype State = State(names: Table, types: Table)

  ghost predicate StateOk(st: State) {
    TableOk(st.names) && TableOk(st.types)
  }

  /** A type shorter than two characters is not entered. */
  predicate TooShort(s: Shape, mode: string) {
    |FullText(s, mode)| < 2
  }

  function TypeText(s: Shape, mode: string, st: State): string
    requires StateOk(st)
  {
    if TooShort(s, mode) then FullText(s, mode)
    else Emitted(st.types, FullText(s, mode), SubText(s, mode, st.names))
  }

  function AfterType(s: Shape, mode: string, st: State): (r: State)
    requires StateOk(st)
    ensures StateOk(r)
  {
    State(EnteredAll(st.names, BaseNames(s.base)), if TooShort(s, mode) then st.types
        else Entered(st.types, FullText(s, mode)))
  }

  function TypesText(shapes: seq<Shape>, mode: string, st: State): string
    requires StateOk(st)
  {
    if shapes == [] then ""
    else TypeText(shapes[0], mode, st) + TypesText(shapes[1..], mode, AfterType(shapes[0], mode, st))
  }

  /** The function's name and namespaces are the first names. */
  function Prefix(sig: Signature): seq<string> {
    [sig.name] + Reverse(sig.namespaces)
  }

  const START := State([], [])

  function Mode(is64Bit: bool): string {
    if is64Bit then "E" else ""
  }

  /** The arguments: X for none, else the types and an end, which is left out after a Z. */
  function ArgsText(before: string, shapes: seq<Shape>, mode: string, st: State): string
    requires StateOk(st)
  {
    if shapes == [] then before + "X"
    else
      var r := before + TypesText(shapes, mode, st);
      if r != "" && r[|r| - 1] == 'Z' then r else r + "@"
  }

  function Mangled(sig: Signature, is64Bit: bool): Option<string> {
    if ShapeOf(sig.result).Some? && ShapesOf(sig.args).Some? then
      var mode, shape, shapes := Mode(is64Bit), ShapeOf(sig.result).value, ShapesOf(sig.args).value;
      var st := State(EnteredAll([], Prefix(sig)), []);
      var before := "\U{0001}?" + NameTexts([], Prefix(sig)) + "@" + "YA" + TypeText(shape, mode, st);
      Some(ArgsText(before, shapes, mode, AfterType(shape, mode, st)) + "Z")
    else None
  }
}
