/** Mangling as CPlusPlusMangle.cpp runs it: tables that are maps, and strings that grow in loops. */
module WindowsMethods {
  import opened Wrappers
  import opened WindowsMangling

  // ----- qualifiers -----

  function OneQualifierSet(isConst: bool, isVolatile: bool, isRestrict: bool, isPointerTarget: bool,
                           mode: string): string {
    if isConst && isVolatile then if isPointerTarget then "S" + mode else "D"
    else if isConst then if isPointerTarget then "Q" + mode else "B"
    else if isVolatile then if isPointerTarget then "R" + mode else "C"
    else if isRestrict && isPointerTarget then "P" + mode + "I"
    else if isPointerTarget then "P" + mode else "A"
  }

  /** What the visitor's fields say after the first `i` modifiers, where a plain one follows the last. */
  predicate Handled(ref: Ref, mode: string, modifiers: seq<Modifier>, i: nat, lastIsPointer: bool, result: string,
                    finished: bool) {
    var k := Depth(modifiers);
    if i <= k then
      && !finished && lastIsPointer == (i > 0)
      && result == if i == 0 then "" else CvText(CvOf(modifiers[i - 1])) + LevelsText(Levels(modifiers, i - 1), mode)
    else
      && finished && !lastIsPointer
      && result == (if ref.NotReference? then "" else CvText(CvOf(ModifierAt(modifiers, k))))
          + LevelsText(Levels(modifiers, k), mode)
  }

  class QualsState {
    var lastIsPointer: bool
    const ref: Ref
    const mode: string
    var result: string
    var finished: bool

    constructor (ref: Ref, mode: string)
      ensures this.ref == ref && this.mode == mode && lastIsPointer == false && result == "" && finished == false
    {
      lastIsPointer, this.ref, this.mode, result, finished := false, ref, mode, "", false;
    }

    method HandleModifier(m: Modifier, ghost modifiers: seq<Modifier>, ghost i: nat)
      requires Handled(ref, mode, modifiers, i, lastIsPointer, result, finished)
      requires m == ModifierAt(modifiers, i) && i <= |modifiers|
      modifies this
      ensures Handled(ref, mode, modifiers, i + 1, lastIsPointer, result, finished)
    {
      HandledMore(ref, mode, modifiers, i, lastIsPointer, result, finished);
      hide *;
      if finished || (!m.isPointer && !lastIsPointer && ref.NotReference?) {
        finished := true;
        return;
      }
      var qualified := OneQualifierSet(m.isConst, m.isVolatile, m.isRestrict, lastIsPointer, mode) + result;
      if lastIsPointer && (m.isPointer || !ref.NotReference?) {
        qualified := OneQualifierSet(m.isConst, m.isVolatile, m.isRestrict, false, mode) + qualified;
      }
      result := qualified;
      lastIsPointer := m.isPointer;
      if !m.isPointer {
        finished := true;
      }
    }

    /** After the last modifier the pointer flag is never set, so the last test of it in
        CPlusPlusMangle.cpp is left out. */
    method Final(ghost modifiers: seq<Modifier>)
      requires Handled(ref, mode, modifiers, |modifiers|, lastIsPointer, result, finished)
      modifies this
      ensures result == QualsText(QualsOf(modifiers, ref), mode)
    {
      if !finished {
        HandleModifier(PLAIN, modifiers, |modifiers|);
      }
      FinalText(ref, mode, modifiers, result);
      hide *;
      match ref
      case LValue =>
        result := "A" + mode + result;
      case RValue =>
        result := "$$Q" + mode + result;
      case NotReference =>
    }
  }

  lemma FinalText(ref: Ref, mode: string, modifiers: seq<Modifier>, result: string)
    requires exists i :: i > Depth(modifiers) && Handled(ref, mode, modifiers, i, false, result, true)
    ensures QualsText(QualsOf(modifiers, ref), mode)
            == match ref
               case NotReference => result
               case LValue => "A" + mode + result
               case RValue => "$$Q" + mode + result
  {
    var q := QualsOf(modifiers, ref);
    var cv, levels := CvText(q.cv), LevelsText(q.levels, mode);
    assert result == if ref.NotReference? then "" + levels else cv + levels;
    assert QualsText(q, mode) == RefText(q, mode) + levels;
    assert RefText(q, mode) == match ref
                               case NotReference => ""
                               case LValue => "A" + mode + cv
                               case RValue => "$$Q" + mode + cv;
    hide *;
    Join("A" + mode, cv, levels);
    Join("$$Q" + mode, cv, levels);
    assert "" + levels == levels;
  }

  /** One more modifier, in each of the ways the visitor treats it. */
  lemma HandledMore(ref: Ref, mode: string, modifiers: seq<Modifier>, i: nat, last: bool, result: string,
                    finished: bool)
    requires Handled(ref, mode, modifiers, i, last, result, finished) && i <= |modifiers|
    ensures var m := ModifierAt(modifiers, i);
            var r := OneQualifierSet(m.isConst, m.isVolatile, m.isRestrict, last, mode) + result;
            var r2 := OneQualifierSet(m.isConst, m.isVolatile, m.isRestrict, false, mode) + r;
            if finished || (!m.isPointer && !last && ref.NotReference?) then
                Handled(ref, mode, modifiers, i + 1, last, result, true)
            else Handled(ref, mode, modifiers, i + 1, m.isPointer, if last
                && (m.isPointer || !ref.NotReference?) then r2 else r, !m.isPointer)
  {
    var m, k := ModifierAt(modifiers, i), Depth(modifiers);
    assert LevelsText(Levels(modifiers, 0), mode) == "";
    CvIsQualifier(m, mode);
    if 0 < i <= k {
      LevelAdded(modifiers, i - 1, mode);
    }
    assert i == k ==> !m.isPointer;
    assert i < k ==> m.isPointer;
    hide LevelsText, Levels, OneQualifierSet, CvText, CvOf, Depth;
  }

  lemma CvIsQualifier(m: Modifier, mode: string)
    ensures OneQualifierSet(m.isConst, m.isVolatile, m.isRestrict, false, mode) == CvText(CvOf(m))
  {
  }

  /** One more pointer around what is there. */
  lemma LevelAdded(modifiers: seq<Modifier>, i: nat, mode: string)
    ensures var m := ModifierAt(modifiers, i + 1);
            LevelsText(Levels(modifiers, i + 1), mode)
            == OneQualifierSet(m.isConst, m.isVolatile, m.isRestrict, true, mode)
               + (CvText(CvOf(ModifierAt(modifiers, i))) + LevelsText(Levels(modifiers, i), mode))
  {
    var m, l, rest := ModifierAt(modifiers, i + 1), LevelAt(modifiers, i), Levels(modifiers, i);
    assert ([l] + rest)[1..] == rest;
    assert PtrText(l, mode) == OneQualifierSet(m.isConst, m.isVolatile, m.isRestrict, true, mode);
    assert (PtrText(l, mode) + CvText(l.target)) + LevelsText(rest, mode) == PtrText(l, mode)
        + (CvText(l.target) + LevelsText(rest, mode));
  }

  method MangleQuals(modifiers: seq<Modifier>, ref: Ref, mode: string) returns (r: string)
    ensures r == QualsText(QualsOf(modifiers, ref), mode)
  {
    var state := new QualsState(ref, mode);
    for i := 0 to |modifiers|
      invariant state.ref == ref && state.mode == mode
      invariant Handled(ref, mode, modifiers, i, state.lastIsPointer, state.result, state.finished)
    {
      state.HandleModifier(modifiers[i], modifiers, i);
    }
    state.Final(modifiers);
    return state.result;
  }

  // ----- previous declarations -----

  /** The map gives every entry its position. */
  ghost predicate Represents(m: map<string, int>, t: Table) {
    && |m| == |t|
    && (forall i | 0 <= i < |t| :: t[i] in m && m[t[i]] == i)
    && (forall k | k in m :: 0 <= m[k] < |t| && t[m[k]] == k)
  }

  method CheckAndEnter(table: map<string, int>, name: string, full: string, ghost t: Table)
      returns (r: string, entered: map<string, int>)
    requires TableOk(t) && Represents(table, t)
    ensures r == Emitted(t, name, full) && Represents(entered, Entered(t, name))
  {
    var sub := -1;
    entered := table;
    if |table| >= 10 {
      if name in table {
        sub := table[name];
      }
    } else if name in table {
      sub := table[name];
    } else {
      entered := table[name := |table|];
    }
    if sub != -1 {
      assert t[sub] == name;
      return [Digit(sub)], entered;
    }
    return full, entered;
  }

  class PreviousDeclarations {
    var prevTypes: map<string, int>
    var prevNames: map<string, int>
    ghost var st: State

    ghost predicate Valid()
      reads this
    {
      StateOk(st) && Represents(prevNames, st.names) && Represents(prevTypes, st.types)
    }

    constructor ()
      ensures Valid() && st == START
    {
      prevTypes, prevNames, st := map[], map[], START;
    }

    method CheckAndEnterType(full: string, withSubstitutions: string) returns (r: string)
      requires Valid()
      modifies this
      ensures Valid() && st == State(old(st).names, if |full| < 2 then old(st).types else Entered(old(st).types, full))
      ensures r == if |full| < 2 then full else Emitted(old(st).types, full, withSubstitutions)
    {
      if |full| < 2 {
        return full;
      }
      r, prevTypes := CheckAndEnter(prevTypes, full, withSubstitutions, st.types);
      st := st.(types := Entered(st.types, full));
    }

    method CheckAndEnterName(name: string) returns (r: string)
      requires Valid()
      modifies this
      ensures Valid() && st == State(Entered(old(st).names, name), old(st).types)
      ensures r == NameText(old(st).names, name)
    {
      r, prevNames := CheckAndEnter(prevNames, name, name + "@", st.names);
      st := st.(names := Entered(st.names, name));
    }
  }

  // ----- types -----

  lemma {:induction false} TextsAppend(t: Table, a: seq<string>, x: string)
    requires TableOk(t)
    ensures NamesText(a + [x]) == NamesText(a) + (x + "@")
    ensures EnteredAll(t, a + [x]) == Entered(EnteredAll(t, a), x)
    ensures NameTexts(t, a + [x]) == NameTexts(t, a) + NameText(EnteredAll(t, a), x)
    decreases |a|
  {
    var s := a + [x];
    if a == [] {
      assert s[1..] == [] && s[0] == x;
      LastText(x, t);
    } else {
      assert s[1..] == a[1..] + [x] && s[0] == a[0];
      var t' := Entered(t, a[0]);
      assert NamesText(s) == a[0] + "@" + NamesText(s[1..])
          && NameTexts(t, s) == NameText(t, a[0]) + NameTexts(t', s[1..]);
      assert NamesText(a) == a[0] + "@" + NamesText(a[1..])
          && NameTexts(t, a) == NameText(t, a[0]) + NameTexts(t', a[1..]);
      assert EnteredAll(t, s) == EnteredAll(t', s[1..]) && EnteredAll(t, a) == EnteredAll(t', a[1..]);
      hide *;
      TextsAppend(t', a[1..], x);
      Join(a[0] + "@", NamesText(a[1..]), x + "@");
      Join(NameText(t, a[0]), NameTexts(t', a[1..]), NameText(EnteredAll(t, a), x));
    }
  }

  lemma LastText(x: string, t: Table)
    requires TableOk(t)
    ensures NamesText([x]) == NamesText([]) + (x + "@")
    ensures EnteredAll(t, [x]) == Entered(EnteredAll(t, []), x)
    ensures NameTexts(t, [x]) == NameTexts(t, []) + NameText(EnteredAll(t, []), x)
  {
    assert [x][1..] == [];
    hide Entered, NameText;
  }

  /** The names so far, with and without back-references. */
  ghost predicate Written(names: seq<string>, full: string, subs: string, full0: string, subs0: string, t: Table)
    requires TableOk(t)
  {
    full == full0 + NamesText(names) && subs == subs0 + NameTexts(t, names)
  }

  lemma WrittenMore(names: seq<string>, x: string, full: string, subs: string, full0: string, subs0: string, t: Table)
    requires TableOk(t) && Written(names, full, subs, full0, subs0, t)
    ensures Written(names + [x], full + x + "@", subs + NameText(EnteredAll(t, names), x), full0, subs0, t)
  {
    TextsAppend(t, names, x);
    hide NamesText, NameTexts, NameText, EnteredAll;
    Join(full0, NamesText(names), x + "@");
    Join(full0 + NamesText(names), x, "@");
    Join(subs0, NameTexts(t, names), NameText(EnteredAll(t, names), x));
  }

  lemma ReverseStep(names: seq<string>, scopes: seq<string>, i: nat)
    requires 0 < i <= |scopes|
    ensures names + Reverse(scopes[i - 1..]) == (names + Reverse(scopes[i..])) + [scopes[i - 1]]
  {
    assert scopes[i - 1..][1..] == scopes[i..];
    Join(names, Reverse(scopes[i..]), [scopes[i - 1]]);
  }

  lemma Join<T>(a: seq<T>, b: seq<T>, c: seq<T>)
    ensures a + (b + c) == (a + b) + c
  {
  }

  /** Appends `scopes` from the innermost one on. */
  method MangleScopes(scopes: seq<string>, full: string, subs: string, prev: PreviousDeclarations,
                      ghost names: seq<string>, ghost full0: string, ghost subs0: string, ghost t: Table)
    returns (full': string, subs': string)
    requires prev.Valid() && TableOk(t) && prev.st.names == EnteredAll(t, names)
             && Written(names, full, subs, full0, subs0, t)
    modifies prev
    ensures prev.Valid() && prev.st == State(EnteredAll(t, names + Reverse(scopes)), old(prev.st).types)
    ensures Written(names + Reverse(scopes), full', subs', full0, subs0, t)
  {
    full', subs' := full, subs;
    var i: nat := |scopes|;
    ghost var done := names;
    assert names + Reverse(scopes[|scopes|..]) == names;
    hide EnteredAll, Written, Reverse, Entered, NameText;
    while i > 0
      invariant i <= |scopes| && prev.Valid() && done == names + Reverse(scopes[i..])
      invariant prev.st == State(EnteredAll(t, done), old(prev.st).types)
      invariant Written(done, full', subs', full0, subs0, t)
    {
      ReverseStep(names, scopes, i);
      WrittenMore(done, scopes[i - 1], full', subs', full0, subs0, t);
      TextsAppend(t, done, scopes[i - 1]);
      var x := prev.CheckAndEnterName(scopes[i - 1]);
      full' := full' + scopes[i - 1] + "@";
      subs' := subs' + x;
      done := done + [scopes[i - 1]];
      i := i - 1;
    }
    assert scopes[0..] == scopes;
  }

  /** full_name and with_substitutions of a handle type, or nothing if its name is unknown. */
  method MangleInnerName(h: HandleType, mode: string, prev: PreviousDeclarations) returns (r: Option<(string, string)>)
    requires prev.Valid()
    modifies prev
    ensures prev.Valid()
    ensures r.Some? <==> BaseOf(h).Some?
    ensures r.Some? ==>
      var shape := Shape(QualsOf(h.modifiers, h.ref), BaseOf(h).value);
      && r.value == (FullText(shape, mode), SubText(shape, mode, old(prev.st).names))
      && prev.st == State(EnteredAll(old(prev.st).names, BaseNames(shape.base)), old(prev.st).types)
  {
    var quals := MangleQuals(h.modifiers, h.ref, mode);
    if h.kind.Simple? {
      return if SimpleCode(h.name).Some? then
          Some((quals + SimpleCode(h.name).value, quals + SimpleCode(h.name).value)) else None;
    }
    var code := KindText(h.kind);
    ghost var t := prev.st.names;
    var x := prev.CheckAndEnterName(h.name);
    var full, subs := quals + code + h.name + "@", quals + code + x;
    ghost var start, names := quals + code, [h.name] + Reverse(h.enclosing) + Reverse(h.namespaces);
    WrittenStart(h.name, start, start, t);
    full, subs := MangleScopes(h.enclosing, full, subs, prev, [h.name], start, start, t);
    full, subs := MangleScopes(h.namespaces, full, subs, prev, [h.name] + Reverse(h.enclosing), start, start, t);
    assert full == start + NamesText(names) && subs == start + NameTexts(t, names);
    assert BaseOf(h) == Some(Named(h.kind, names));
    hide EnteredAll, NamesText, NameTexts, Reverse, QualsText, QualsOf, BaseOf, Written;
    NamedText(quals, code, NamesText(names));
    NamedText(quals, code, NameTexts(t, names));
    r := Some((full + "@", subs + "@"));
  }

  lemma NamedText(quals: string, code: string, names: string)
    ensures quals + code + names + "@" == quals + (code + names + "@")
  {
  }

  /** After the first name. */
  lemma WrittenStart(name: string, full0: string, subs0: string, t: Table)
    requires TableOk(t)
    ensures Written([name], full0 + name + "@", subs0 + NameText(t, name), full0, subs0, t)
    ensures EnteredAll(t, [name]) == Entered(t, name)
  {
    assert full0 + NamesText([]) == full0 && subs0 + NameTexts(t, []) == subs0;
    WrittenMore([], name, full0, subs0, full0, subs0, t);
    TextsAppend(t, [], name);
    assert [] + [name] == [name];
  }

  lemma ScalarText(ty: Type, mode: string, t: Table)
    requires !ty.Handle? && TableOk(t)
    ensures ShapeOf(ty).Some? <==> ScalarCode(ty).Some?
    ensures ShapeOf(ty).Some? ==>
      var shape := ShapeOf(ty).value;
      FullText(shape, mode) == ScalarCode(ty).value == SubText(shape, mode, t)
          && EnteredAll(t, BaseNames(shape.base)) == t
  {
    assert QualsText(NO_QUALS, mode) == "";
    hide ScalarCode;
  }

  /** mangle_type. */
  method MangleType(ty: Type, mode: string, prev: PreviousDeclarations) returns (r: Option<(string, string)>)
    requires prev.Valid()
    modifies prev
    ensures prev.Valid()
    ensures r.Some? <==> ShapeOf(ty).Some?
    ensures r.Some? ==>
      var shape := ShapeOf(ty).value;
      && r.value == (FullText(shape, mode), SubText(shape, mode, old(prev.st).names))
      && prev.st == State(EnteredAll(old(prev.st).names, BaseNames(shape.base)), old(prev.st).types)
  {
    if !ty.Handle? {
      ScalarText(ty, mode, prev.st.names);
      return if ScalarCode(ty).Some? then Some((ScalarCode(ty).value, ScalarCode(ty).value)) else None;
    }
    hide EnteredAll, QualsText, QualsOf, NamesText, NameTexts;
    r := MangleInnerName(HandleOf(ty), mode, prev);
  }

  /** A type as it is emitted, and entered. */
  method EmitType(ty: Type, mode: string, prev: PreviousDeclarations) returns (r: Option<string>)
    requires prev.Valid()
    modifies prev
    ensures prev.Valid()
    ensures r.Some? <==> ShapeOf(ty).Some?
    ensures r.Some? ==>
      r.value == TypeText(ShapeOf(ty).value, mode, old(prev.st))
          && prev.st == AfterType(ShapeOf(ty).value, mode, old(prev.st))
  {
    var mangled := MangleType(ty, mode, prev);
    if mangled.None? {
      return None;
    }
    var text := prev.CheckAndEnterType(mangled.value.0, mangled.value.1);
    r := Some(text);
  }

  /** The texts of the arguments, if all of them can be mangled. */
  function ArgTexts(args: seq<Arg>, mode: string, st: State): Option<string>
    requires StateOk(st)
    decreases |args|
  {
    if args == [] then Some("")
    else
      var shape := ShapeOf(ArgType(args[0]));
      if shape.None? then None
      else
        var rest := ArgTexts(args[1..], mode, AfterType(shape.value, mode, st));
        if rest.None? then None else Some(TypeText(shape.value, mode, st) + rest.value)
  }

  lemma {:induction false} ArgTextsAreTypes(args: seq<Arg>, mode: string, st: State)
    requires StateOk(st)
    ensures ArgTexts(args, mode, st) == if ShapesOf(args).Some? then Some(TypesText(ShapesOf(args).value, mode, st))
            else None
    decreases |args|
  {
    if args != [] {
      var shape := ShapeOf(ArgType(args[0]));
      if shape.Some? {
        ArgTextsAreTypes(args[1..], mode, AfterType(shape.value, mode, st));
        if ShapesOf(args[1..]).Some? {
          assert ([shape.value] + ShapesOf(args[1..]).value)[1..] == ShapesOf(args[1..]).value;
        }
      }
      hide TypeText, AfterType, ShapeOf;
    }
  }

  ghost function Prepend(s: string, o: Option<string>): Option<string> {
    if o.Some? then Some(s + o.value) else None
  }

  /** The types of the arguments, appended to `before`. */
  method EmitArgs(args: seq<Arg>, before: string, mode: string, prev: PreviousDeclarations) returns (r: Option<string>)
    requires prev.Valid()
    modifies prev
    ensures r == if ShapesOf(args).Some? then Some(before + TypesText(ShapesOf(args).value, mode, old(prev.st)))
            else None
  {
    ghost var st := prev.st;
    var result := before;
    ArgTextsAreTypes(args, mode, st);
    assert args[0..] == args;
    hide TypesText, ShapesOf, TypeText, AfterType, StateOk;
    for i := 0 to |args|
      invariant prev.Valid() && StateOk(prev.st)
      invariant Prepend(before, ArgTexts(args, mode, st)) == Prepend(result, ArgTexts(args[i..], mode, prev.st))
    {
      assert args[i..][1..] == args[i + 1..];
      ghost var rest := ArgTexts(args[i..], mode, prev.st);
      var text := EmitType(ArgType(args[i]), mode, prev);
      if text.None? {
        return None;
      }
      if rest.Some? {
        Join(result, text.value, ArgTexts(args[i + 1..], mode, prev.st).value);
      }
      result := result + text.value;
    }
    assert args[|args|..] == [];
    assert result + "" == result;
    r := Some(result);
  }

  /** cplusplus_function_mangled_name. */
  method FunctionMangledName(sig: Signature, is64Bit: bool) returns (r: Option<string>)
    ensures r == Mangled(sig, is64Bit)
  {
    ArgsCount(sig.args);
    hide NameTexts, EnteredAll, TypeText, TypesText, AfterType, ShapeOf, ShapesOf, Prefix, Mode;
    var mode := Mode(is64Bit);
    var prev := new PreviousDeclarations();
    var result := PrefixText(sig, prev);
    var ret := EmitType(sig.result, mode, prev);
    if ret.None? {
      return None;
    }
    result := result + ret.value;
    if sig.args == [] {
      result := result + "X";
    } else {
      var args := EmitArgs(sig.args, result, mode, prev);
      if args.None? {
        return None;
      }
      result := args.value;
      if result == "" || result[|result| - 1] != 'Z' {
        result := result + "@";
      }
    }
    r := Some(result + "Z");
  }

  lemma {:induction false} ArgsCount(args: seq<Arg>)
    ensures ShapesOf(args).Some? ==> |ShapesOf(args).value| == |args|
    ensures args == [] ==> ShapesOf(args).Some?
  {
    if args != [] {
      ArgsCount(args[1..]);
    }
  }

  /** Everything before the return type. */
  method PrefixText(sig: Signature, prev: PreviousDeclarations) returns (r: string)
    requires prev.Valid() && prev.st == START
    modifies prev
    ensures prev.Valid() && prev.st == State(EnteredAll([], Prefix(sig)), [])
    ensures r == "\U{0001}?" + NameTexts([], Prefix(sig)) + "@" + "YA"
  {
    r := "\U{0001}?";
    var x := prev.CheckAndEnterName(sig.name);
    WrittenStart(sig.name, "", r, []);
    var _, r' := MangleScopes(sig.namespaces, "" + sig.name + "@", r + x, prev, [sig.name], "", r, []);
    r := r' + "@" + "YA";
  }
}
