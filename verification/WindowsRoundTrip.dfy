/** Reading a mangled name back gives what was mangled. */
module WindowsRoundTrip {
  import opened Wrappers
  import opened WindowsMangling
  import opened WindowsDemangling

  /** A C++ identifier, as far as mangling cares. */
  predicate Identifier(n: string) {
    n != "" && '@' !in n && !IsDigit(n[0])
  }

  predicate Identifiers(names: seq<string>) {
    forall n | n in names :: Identifier(n)
  }

  predicate LevelOk(l: Level) {
    l.restrict ==> l.ptr.NoCv?
  }

  predicate QualsOk(q: Quals) {
    (q.ref.NotReference? ==> q.cv.NoCv?) && forall l | l in q.levels :: LevelOk(l)
  }

  predicate BaseOk(b: Base) {
    match b
    case Code(c) => IsCode(c)
    case Named(k, names) => !k.Simple? && Identifiers(names)
  }

  predicate ShapeOk(s: Shape) {
    QualsOk(s.quals) && BaseOk(s.base)
  }

  predicate TypeNamed(t: Type) {
    t.Handle? && t.h.Some? && !t.h.value.kind.Simple? ==>
      Identifier(t.h.value.name) && Identifiers(t.h.value.enclosing) && Identifiers(t.h.value.namespaces)
  }

  predicate SignatureNamed(sig: Signature) {
    && Identifier(sig.name) && Identifiers(sig.namespaces) && TypeNamed(sig.result)
    && forall a | a in sig.args :: TypeNamed(ArgType(a))
  }

  // ----- what signatures are made of -----

  lemma ReverseKeeps(s: seq<string>)
    requires Identifiers(s)
    ensures Identifiers(Reverse(s))
  {
    forall n | n in Reverse(s) ensures Identifier(n) {
      var i: nat :| i < |s| && Reverse(s)[i] == n;
      assert s[|s| - 1 - i] == n;
    }
  }

  lemma ReverseTwice(s: seq<string>)
    ensures Reverse(Reverse(s)) == s
  {
    forall i | 0 <= i < |s| ensures Reverse(Reverse(s))[i] == s[i] {
      assert Reverse(s)[|s| - 1 - i] == s[i];
    }
  }

  lemma {:induction false} LevelsAreOk(modifiers: seq<Modifier>, k: nat)
    ensures forall l | l in Levels(modifiers, k) :: LevelOk(l)
  {
    if k > 0 { LevelsAreOk(modifiers, k - 1); }
  }

  lemma ShapesAreOk(t: Type)
    requires TypeNamed(t) && ShapeOf(t).Some?
    ensures ShapeOk(ShapeOf(t).value)
  {
    if t.Handle? {
      var h := HandleOf(t);
      LevelsAreOk(h.modifiers, Depth(h.modifiers));
      assert QualsOk(QualsOf(h.modifiers, h.ref));
      if !h.kind.Simple? {
        ReverseKeeps(h.enclosing);
        ReverseKeeps(h.namespaces);
      }
    }
  }

  // ----- reading names -----

  lemma {:induction false} UpToAtReads(n: string, rest: string)
    requires '@' !in n
    ensures UpToAt(n + "@" + rest) == Some((n, rest))
  {
    var s := n + "@" + rest;
    if n == "" {
      assert s[1..] == rest;
    } else {
      assert s[1..] == n[1..] + "@" + rest;
      UpToAtReads(n[1..], rest);
      assert [n[0]] + n[1..] == n;
    }
  }

  lemma DigitsRead(i: nat)
    requires i < 10
    ensures IsDigit(Digit(i)) && DigitValue(Digit(i)) == i
  {
    assert i == 0 || i == 1 || i == 2 || i == 3 || i == 4 || i == 5 || i == 6 || i == 7 || i == 8 || i == 9;
  }

  lemma NameReads(t: Table, n: string, rest: string)
    requires TableOk(t) && Identifier(n)
    ensures var s := NameText(t, n) + rest; ReadName(s, t) == Some((n, rest)) && s != "" && s[0] != '@'
  {
    if n in t {
      DigitsRead(IndexOf(t, n));
      assert (NameText(t, n) + rest)[1..] == rest;
    } else {
      UpToAtReads(n, rest);
      assert NameText(t, n)[0] == n[0] && n[0] in n;
    }
  }

  lemma {:induction false} NamesRead(t: Table, names: seq<string>, rest: string)
    requires TableOk(t) && Identifiers(names)
    ensures ReadNames(NameTexts(t, names) + "@" + rest, t) == Some((names, rest, EnteredAll(t, names)))
    decreases |names|
  {
    if names == [] {
      NamesEnd(t, rest);
    } else {
      var first, t', more := NameText(t, names[0]), Entered(t, names[0]), names[1..];
      assert NameTexts(t, names) == first + NameTexts(t', more) && EnteredAll(t, names) == EnteredAll(t', more);
      assert Identifier(names[0]) && Identifiers(more) && [names[0]] + more == names;
      hide *;
      NamesRead(t', more, rest);
      NameReads(t, names[0], NameTexts(t', more) + "@" + rest);
      NamesStep(first + (NameTexts(t', more) + "@" + rest), t, names[0], NameTexts(t', more) + "@" + rest, more, rest,
          EnteredAll(t', more));
      Join4(first, NameTexts(t', more), "@", rest);
    }
  }

  lemma NamesEnd(t: Table, rest: string)
    ensures ReadNames("" + "@" + rest, t) == Some(([], rest, t))
  {
    assert ("" + "@" + rest)[1..] == rest;
  }

  lemma NamesStep(s: string, t: Table, name: string, s1: string, more: seq<string>, rest: string, t': Table)
    requires ReadName(s, t) == Some((name, s1)) && s != "" && s[0] != '@'
    requires ReadNames(s1, Entered(t, name)) == Some((more, rest, t'))
    ensures ReadNames(s, t) == Some(([name] + more, rest, t'))
  {
    hide ReadName, Entered;
  }

  lemma Join4(a: string, b: string, c: string, d: string)
    ensures (a + b) + c + d == a + (b + c + d)
  {
  }

  // ----- reading types -----

  predicate IsMode(mode: string) {
    mode == "" || mode == "E"
  }

  /** What follows the qualifiers of a type. */
  predicate StartsBase(s: string) {
    s != "" && s[0] !in {'A', '$', 'P', 'Q', 'R', 'S', '@', 'Z'} && !IsDigit(s[0])
  }

  lemma StartsAfter(p: string, rest: string)
    ensures Starts(p + rest, p) && (p + rest)[|p|..] == rest
  {
  }

  lemma StartsFirst(s: string, p: string)
    ensures Starts(s, p) && p != "" ==> s != "" && s[0] == p[0]
  {
    if Starts(s, p) && p != "" {
      assert s[..|p|][0] == s[0];
    }
  }

  lemma Join3(a: string, b: string, c: string)
    ensures (a + b) + c == a + (b + c)
  {
  }

  lemma CvReads(c: Cv)
    ensures |CvText(c)| == 1 && ReadCv(CvText(c)[0]) == Some(c) && CvText(c)[0] != 'I'
  {
  }

  lemma {:induction false} LevelsRead(levels: seq<Level>, mode: string, rest: string)
    requires IsMode(mode) && StartsBase(rest) && forall l | l in levels :: LevelOk(l)
    ensures ReadLevels(LevelsText(levels, mode) + rest, mode) == Some((levels, rest))
    ensures levels != [] ==> LevelsText(levels, mode) != "" && LevelsText(levels, mode)[0] in {'P', 'Q', 'R', 'S'}
    decreases |levels|
  {
    if levels == [] {
      assert LevelsText(levels, mode) + rest == rest;
    } else {
      var l, text, more := levels[0], LevelText(levels[0], mode), LevelsText(levels[1..], mode);
      LevelsTextStarts(levels, mode);
      assert LevelsText(levels, mode) == text + more && [l] + levels[1..] == levels;
      hide *;
      LevelsRead(levels[1..], mode, rest);
      LevelReads(l, mode, levels[1..], more + rest, rest);
      Join3(text, more, rest);
    }
  }

  lemma LevelsTextStarts(levels: seq<Level>, mode: string)
    requires levels != []
    ensures LevelsText(levels, mode) != "" && LevelsText(levels, mode)[0] in {'P', 'Q', 'R', 'S'}
  {
    assert PtrText(levels[0], mode) != "" && PtrText(levels[0], mode)[0] in {'P', 'Q', 'R', 'S'};
    assert LevelText(levels[0], mode)[0] == PtrText(levels[0], mode)[0];
    assert LevelsText(levels, mode)[0] == LevelText(levels[0], mode)[0];
  }

  lemma LevelReads(l: Level, mode: string, levels: seq<Level>, more: string, rest: string)
    requires IsMode(mode) && LevelOk(l) && ReadLevels(more, mode) == Some((levels, rest))
    ensures ReadLevels(LevelText(l, mode) + more, mode) == Some(([l] + levels, rest))
  {
    var c := CvText(l.target);
    var tail := c + more;
    CvReads(l.target);
    assert tail[1..] == more && tail[0] == c[0];
    Join3(PtrText(l, mode), c, more);
    PtrReads(l, mode, tail);
    assert LevelText(l, mode) + more == PtrText(l, mode) + tail;
    hide LevelText, PtrText, CvText;
    LevelStep(PtrText(l, mode) + tail, mode, l, tail, levels, rest);
  }

  function Restricted(l: Level, tail: string): string {
    if l.restrict then "I" + tail else tail
  }

  lemma PtrReads(l: Level, mode: string, tail: string)
    requires IsMode(mode) && LevelOk(l)
    ensures var s := PtrText(l, mode) + tail;
            s != "" && ReadPtr(s[0]) == Some(l.ptr) && Starts(s[1..], mode) && s[1 + |mode|..] == Restricted(l, tail)
    ensures PtrText(l, mode) != "" && PtrText(l, mode)[0] in {'P', 'Q', 'R', 'S'}
  {
    var p, i := PtrText(l, mode)[..1], if l.restrict then "I" else "";
    assert PtrText(l, mode) == p + (mode + i);
    assert i + tail == Restricted(l, tail) && ReadPtr(p[0]) == Some(l.ptr) && p[0] in {'P', 'Q', 'R', 'S'};
    hide PtrText, Restricted, LevelOk, ReadPtr, IsMode;
    Join4'(p, mode, i, tail);
    StartsAfter(mode, i + tail);
    PtrParts(p, mode, i + tail);
  }

  lemma Join4'(a: string, b: string, c: string, d: string)
    ensures (a + (b + c)) + d == a + (b + (c + d))
  {
  }

  lemma PtrParts(p: string, mode: string, rest: string)
    requires |p| == 1
    ensures var s := p + (mode + rest); s != "" && s[0] == p[0] && s[1..] == mode + rest && s[1 + |mode|..] == rest
  {
  }

  lemma LevelStep(s: string, mode: string, l: Level, tail: string, levels: seq<Level>, rest: string)
    requires IsMode(mode) && LevelOk(l) && s != "" && ReadPtr(s[0]) == Some(l.ptr) && Starts(s[1..], mode)
    requires s[1 + |mode|..] == Restricted(l, tail) && tail != "" && tail[0] != 'I' && ReadCv(tail[0]) == Some(l.target)
    requires ReadLevels(tail[1..], mode) == Some((levels, rest))
    ensures ReadLevels(s, mode) == Some(([l] + levels, rest))
  {
    var s1 := s[1 + |mode|..];
    if l.restrict {
      assert s1[1..] == tail && s1[0] == 'I';
    }
    hide ReadCv, ReadPtr, Starts;
  }

  lemma RefReads(q: Quals, mode: string, rest: string)
    requires IsMode(mode) && QualsOk(q) && rest != "" && rest[0] != 'A' && rest[0] != '$'
    ensures ReadRef(RefText(q, mode) + rest, mode) == Some((q.ref, q.cv, rest))
    ensures RefText(q, mode) != "" ==> RefText(q, mode)[0] in {'A', '$'}
  {
    if q.ref.NotReference? {
      assert RefText(q, mode) + rest == rest;
      NoRefReads(rest, mode);
    } else {
      var p, c := if q.ref.LValue? then "A" else "$$Q", CvText(q.cv);
      CvReads(q.cv);
      Join3(p + mode, c, rest);
      Join3(p, mode, c + rest);
      StartsAfter(p, mode + (c + rest));
      StartsAfter(mode, c + rest);
      assert (c + rest)[0] == c[0] && (c + rest)[1..] == rest;
      hide CvText, ReadCv;
      assert q.ref.RValue? ==> (p + (mode + (c + rest)))[..1][0] == '$';
    }
  }

  lemma NoRefReads(s: string, mode: string)
    requires s != "" && s[0] != 'A' && s[0] != '$'
    ensures ReadRef(s, mode) == Some((NotReference, NoCv, s))
  {
    StartsFirst(s, "A");
    StartsFirst(s, "$$Q");
    hide ReadRefCv, Starts;
  }

  lemma KindReads(k: Kind, rest: string)
    requires !k.Simple?
    ensures ReadKind(KindText(k) + rest) == Some((k, rest))
    ensures KindText(k) != "" && KindText(k)[0] in {'U', 'V', 'T', 'W'}
  {
    var s := KindText(k) + rest;
    StartsAfter(KindText(k), rest);
    assert s[..1] == [s[0]];
  }

  lemma CodeReads(c: string, rest: string, t: Table)
    requires IsCode(c)
    ensures ReadBase(c + rest, t) == Some((Code(c), rest, t))
    ensures StartsBase(c) && c[|c| - 1] != 'Z' && c[|c| - 1] != '@'
  {
    var s := c + rest;
    assert |s| >= 1 && s[0] == c[0] && s[..1] == [c[0]];
    assert |s| >= 2 ==> s[..2][0] == s[0];
    assert |c| == 1 || (|c| == 2 && c[0] == '_');
    if |c| == 1 {
      assert s[..1] == c && s[1..] == rest;
    } else {
      assert s[..2] == c && s[2..] == rest;
      assert s[..1] == "_";
    }
  }

  /** The part of a type after the qualifiers, with back-references. */
  function BaseSub(b: Base, t: Table): string
    requires TableOk(t)
  {
    match b
    case Code(c) => c
    case Named(k, names) => KindText(k) + NameTexts(t, names) + "@"
  }

  lemma BaseReads(b: Base, t: Table, rest: string)
    requires TableOk(t) && BaseOk(b)
    ensures ReadBase(BaseSub(b, t) + rest, t) == Some((b, rest, EnteredAll(t, BaseNames(b))))
    ensures StartsBase(BaseSub(b, t)) && BaseSub(b, t)[|BaseSub(b, t)| - 1] != 'Z'
  {
    match b
    case Code(c) => CodeReads(c, rest, t);
    case Named(k, names) =>
      var more := NameTexts(t, names) + "@" + rest;
      KindReads(k, more);
      NamesRead(t, names, rest);
      Join4(KindText(k), NameTexts(t, names), "@", rest);
      assert |BaseSub(b, t)| >= 1 && BaseSub(b, t)[0] == KindText(k)[0] && BaseSub(b, t)[|BaseSub(b, t)| - 1] == '@';
      hide NameTexts, ReadNames, ReadKind, KindText, EnteredAll;
  }

  lemma StartsMore(s: string, rest: string)
    requires StartsBase(s)
    ensures StartsBase(s + rest)
  {
  }

  lemma ShapeReads(s: Shape, mode: string, t: Table, rest: string)
    requires IsMode(mode) && TableOk(t) && ShapeOk(s)
    ensures ReadShape(SubText(s, mode, t) + rest, mode, t) == Some((s, rest, EnteredAll(t, BaseNames(s.base))))
    ensures SubText(s, mode, t) != "" && SubText(s, mode, t)[0] != '@' && !IsDigit(SubText(s, mode, t)[0])
    ensures SubText(s, mode, t)[|SubText(s, mode, t)| - 1] != 'Z'
  {
    var a, l, b := RefText(s.quals, mode), LevelsText(s.quals.levels, mode), BaseSub(s.base, t);
    assert SubText(s, mode, t) == (a + l) + b;
    BaseReads(s.base, t, rest);
    StartsMore(b, rest);
    LevelsRead(s.quals.levels, mode, b + rest);
    PartsStart(a, l, b, rest);
    assert QualsOk(s.quals);
    hide SubText, BaseSub, LevelsText, RefText, ReadBase, ReadLevels, ReadRef, EnteredAll, QualsOk, BaseOk, LevelOk,
        StartsBase, Identifiers, TableOk;
    RefReads(s.quals, mode, l + (b + rest));
    PartsText(a, l, b, rest);
    assert ReadShape(a + (l + (b + rest)), mode, t) == Some((s, rest, EnteredAll(t, BaseNames(s.base))));
  }

  lemma PartsText(a: string, l: string, b: string, rest: string)
    requires a != "" ==> a[0] in {'A', '$'}
    requires l != "" ==> l[0] in {'P', 'Q', 'R', 'S'}
    requires StartsBase(b) && b[|b| - 1] != 'Z'
    ensures ((a + l) + b) + rest == a + (l + (b + rest))
    ensures var s := (a + l) + b; s != "" && s[0] != '@' && !IsDigit(s[0]) && s[|s| - 1] != 'Z'
  {
    var s := (a + l) + b;
    assert s[0] == if a != "" then a[0] else if l != "" then l[0] else b[0];
    assert s[|s| - 1] == b[|b| - 1];
  }

  lemma PartsStart(a: string, l: string, b: string, rest: string)
    requires l != "" ==> l[0] in {'P', 'Q', 'R', 'S'}
    requires StartsBase(b)
    ensures var s := l + (b + rest); s != "" && s[0] != 'A' && s[0] != '$'
  {
    var s := l + (b + rest);
    assert s[0] == if l != "" then l[0] else b[0];
  }

  // ----- full texts tell types apart -----

  lemma {:induction false} NamesTextTells(a: seq<string>, b: seq<string>)
    requires Identifiers(a) && Identifiers(b) && NamesText(a) + "@" == NamesText(b) + "@"
    ensures a == b
    decreases |a|
  {
    NamesTextEnds(a);
    NamesTextEnds(b);
    if a != [] && b != [] {
      assert a[0] in a && b[0] in b;
      var x, y := NamesText(a[1..]) + "@", NamesText(b[1..]) + "@";
      assert NamesText(a) + "@" == a[0] + "@" + x && NamesText(b) + "@" == b[0] + "@" + y;
      UpToAtReads(a[0], x);
      UpToAtReads(b[0], y);
      NamesTextTells(a[1..], b[1..]);
      assert a == [a[0]] + a[1..] && b == [b[0]] + b[1..];
    }
  }

  lemma NamesTextEnds(a: seq<string>)
    requires Identifiers(a)
    ensures NamesText(a) + "@" == "@" <==> a == []
  {
    assert a != [] ==> |NamesText(a)| > 0;
    assert |NamesText(a) + "@"| == |NamesText(a)| + 1;
  }

  function BaseFull(b: Base): string {
    match b
    case Code(c) => c
    case Named(k, names) => KindText(k) + NamesText(names) + "@"
  }

  lemma BaseFullTells(a: Base, b: Base)
    requires BaseOk(a) && BaseOk(b) && BaseFull(a) == BaseFull(b)
    ensures a == b
  {
    BaseFullKind(a);
    BaseFullKind(b);
    if a.Named? && b.Named? {
      NamesTextTells(a.names, b.names);
    }
  }

  lemma BaseFullKind(a: Base)
    requires BaseOk(a)
    ensures StartsBase(BaseFull(a))
    ensures ReadKind(BaseFull(a)) == if a.Named? then Some((a.kind, NamesText(a.names) + "@")) else None
  {
    match a
    case Code(c) =>
      CodeReads(c, "", []);
      assert c[..1] == [c[0]];
      assert |c| >= 2 ==> c[..2][0] == c[0];
    case Named(k, names) =>
      KindReads(k, NamesText(names) + "@");
      assert BaseFull(a) == KindText(k) + (NamesText(names) + "@");
  }

  lemma FullTells(a: Shape, b: Shape, mode: string)
    requires IsMode(mode) && ShapeOk(a) && ShapeOk(b) && FullText(a, mode) == FullText(b, mode)
    ensures a == b
  {
    FullReads(a, mode);
    FullReads(b, mode);
    hide FullText, ReadRef, ReadLevels, BaseFull, ShapeOk;
    BaseFullTells(a.base, b.base);
  }

  lemma FullReads(a: Shape, mode: string)
    requires IsMode(mode) && ShapeOk(a)
    ensures BaseOk(a.base)
    ensures var ref := ReadRef(FullText(a, mode), mode);
            && ref.Some? && ref.value.0 == a.quals.ref && ref.value.1 == a.quals.cv
            && ReadLevels(ref.value.2, mode) == Some((a.quals.levels, BaseFull(a.base)))
  {
    var r, l, b := RefText(a.quals, mode), LevelsText(a.quals.levels, mode), BaseFull(a.base);
    BaseFullKind(a.base);
    assert FullText(a, mode) == (r + l) + b && QualsOk(a.quals);
    LevelsRead(a.quals.levels, mode, b);
    hide FullText, RefText, LevelsText, BaseFull, QualsOk, ReadRef, ReadLevels, ReadKind, StartsBase;
    PartsStart(r, l, b, "");
    assert b + "" == b;
    RefReads(a.quals, mode, l + b);
    Join3(r, l, b);
  }

  // ----- the tables of both sides -----

  function FullTexts(shapes: seq<Shape>, mode: string): (r: seq<string>)
    ensures |r| == |shapes| && forall i | 0 <= i < |shapes| :: r[i] == FullText(shapes[i], mode)
  {
    if shapes == [] then [] else [FullText(shapes[0], mode)] + FullTexts(shapes[1..], mode)
  }

  /** Mangling these names again will not change the table. */
  predicate Settled(t: Table, names: seq<string>) {
    |t| >= 10 || forall n | n in names :: n in t
  }

  /** Both sides have the same names and the same types, and the names of every type are settled. */
  ghost predicate Agree(st: State, seen: Seen, mode: string) {
    && StateOk(st) && st.names == seen.names && st.types == FullTexts(seen.shapes, mode)
    && forall s | s in seen.shapes :: ShapeOk(s) && !TooShort(s, mode) && Settled(st.names, BaseNames(s.base))
  }

  lemma {:induction false} EnteredAllSettles(t: Table, names: seq<string>)
    requires TableOk(t)
    ensures Settled(EnteredAll(t, names), names) && |EnteredAll(t, names)| >= |t|
    ensures forall n | n in t :: n in EnteredAll(t, names)
    decreases |names|
  {
    if names != [] {
      EnteredAllSettles(Entered(t, names[0]), names[1..]);
    }
  }

  /** Mangling the names of a type again never changes the name table. */
  lemma {:induction false} SettledStays(t: Table, names: seq<string>)
    requires TableOk(t) && Settled(t, names)
    ensures EnteredAll(t, names) == t
    decreases |names|
  {
    if names != [] {
      SettledStays(t, names[1..]);
    }
  }

  lemma FullTextsFind(shapes: seq<Shape>, mode: string, s: Shape)
    requires IsMode(mode) && ShapeOk(s) && forall x | x in shapes :: ShapeOk(x)
    ensures FullText(s, mode) in FullTexts(shapes, mode) <==> s in shapes
  {
    if FullText(s, mode) in FullTexts(shapes, mode) {
      var i: nat :| i < |shapes| && FullTexts(shapes, mode)[i] == FullText(s, mode);
      FullTells(s, shapes[i], mode);
    }
    if s in shapes {
      var i: nat :| i < |shapes| && shapes[i] == s;
      assert FullTexts(shapes, mode)[i] == FullText(s, mode);
    }
  }

  lemma EnteredAgree(shapes: seq<Shape>, mode: string, s: Shape)
    requires IsMode(mode) && ShapeOk(s) && forall x | x in shapes :: ShapeOk(x)
    ensures FullTexts(Entered(shapes, s), mode) == Entered(FullTexts(shapes, mode), FullText(s, mode))
  {
    FullTextsFind(shapes, mode, s);
    hide FullText, ShapeOk;
  }

  /** One type is read back, and afterwards both sides still agree. */
  lemma TypeReads(s: Shape, mode: string, st: State, seen: Seen, rest: string)
    requires IsMode(mode) && ShapeOk(s) && Agree(st, seen, mode)
    ensures var r := ReadType(TypeText(s, mode, st) + rest, mode, seen);
            && r.Some? && r.value.0 == s && r.value.1 == rest && Agree(AfterType(s, mode, st), r.value.2, mode)
    ensures var text := TypeText(s, mode, st); text != "" && text[0] != '@' && text[|text| - 1] != 'Z'
  {
    if !TooShort(s, mode) && s in seen.shapes {
      KnownReads(s, mode, st, seen, rest);
    } else {
      NewReads(s, mode, st, seen, rest);
    }
    hide *;
  }

  lemma KnownReads(s: Shape, mode: string, st: State, seen: Seen, rest: string)
    requires IsMode(mode) && ShapeOk(s) && Agree(st, seen, mode) && !TooShort(s, mode) && s in seen.shapes
    ensures ReadType(TypeText(s, mode, st) + rest, mode, seen) == Some((s, rest, seen)) && AfterType(s, mode, st) == st
    ensures var text := TypeText(s, mode, st); text != "" && text[0] != '@' && text[|text| - 1] != 'Z'
  {
    FullTextsFind(seen.shapes, mode, s);
    SettledStays(st.names, BaseNames(s.base));
    var i := IndexOf(st.types, FullText(s, mode));
    DigitsRead(i);
    assert FullText(seen.shapes[i], mode) == FullText(s, mode);
    FullTells(seen.shapes[i], s, mode);
    assert ([Digit(i)] + rest)[1..] == rest;
    hide FullText, ShapeOk, EnteredAll, Digit, DigitValue, IsDigit;
  }

  lemma NewReads(s: Shape, mode: string, st: State, seen: Seen, rest: string)
    requires IsMode(mode) && ShapeOk(s) && Agree(st, seen, mode) && (TooShort(s, mode) || s !in seen.shapes)
    ensures var r := ReadType(TypeText(s, mode, st) + rest, mode, seen);
            && r.Some? && r.value.0 == s && r.value.1 == rest && Agree(AfterType(s, mode, st), r.value.2, mode)
    ensures var text := TypeText(s, mode, st); text != "" && text[0] != '@' && text[|text| - 1] != 'Z'
  {
    var names := EnteredAll(st.names, BaseNames(s.base));
    NewText(s, mode, st, seen);
    ShapeReads(s, mode, st.names, rest);
    EnteredAgree(seen.shapes, mode, s);
    AgreeAfter(s, mode, st, seen);
    hide FullText, ShapeOk, EnteredAll, ReadShape, SubText, TypeText, Agree, AfterType;
    assert (SubText(s, mode, st.names) + rest)[0] == SubText(s, mode, st.names)[0];
  }

  /** A type that is not in the table is written out; a short one has no names. */
  lemma NewText(s: Shape, mode: string, st: State, seen: Seen)
    requires IsMode(mode) && ShapeOk(s) && Agree(st, seen, mode) && (TooShort(s, mode) || s !in seen.shapes)
    ensures TypeText(s, mode, st) == SubText(s, mode, st.names)
  {
    NamedIsLong(s, mode);
    if !TooShort(s, mode) {
      FullTextsFind(seen.shapes, mode, s);
    }
    hide Agree, ShapeOk;
  }

  lemma NamedIsLong(s: Shape, mode: string)
    requires ShapeOk(s)
    ensures s.base.Named? ==> !TooShort(s, mode)
  {
    assert s.base.Named? ==> |KindText(s.base.kind)| >= 1;
  }

  lemma AgreeAfter(s: Shape, mode: string, st: State, seen: Seen)
    requires IsMode(mode) && ShapeOk(s) && Agree(st, seen, mode)
    ensures Agree(AfterType(s, mode, st), After(s, mode, Seen(EnteredAll(st.names, BaseNames(s.base)), seen.shapes)),
            mode)
  {
    var names := EnteredAll(st.names, BaseNames(s.base));
    var shapes := if TooShort(s, mode) then seen.shapes else Entered(seen.shapes, s);
    EnteredAllSettles(st.names, BaseNames(s.base));
    EnteredAgree(seen.shapes, mode, s);
    assert After(s, mode, Seen(names, seen.shapes)) == Seen(names, shapes);
    assert AfterType(s, mode, st) == State(names, FullTexts(shapes, mode));
    forall x | x in shapes ensures ShapeOk(x) && !TooShort(x, mode) && Settled(names, BaseNames(x.base)) {
      if x in seen.shapes {
        SettledMore(st.names, names, BaseNames(x.base));
      }
    }
    hide FullTexts, ShapeOk, EnteredAll, TooShort, Settled;
  }

  lemma SettledMore(t: Table, more: Table, names: seq<string>)
    requires Settled(t, names) && |more| >= |t| && forall n | n in t :: n in more
    ensures Settled(more, names)
  {
  }

  lemma {:induction false} TypesRead(shapes: seq<Shape>, mode: string, st: State, seen: Seen, rest: string)
    requires IsMode(mode) && (forall s | s in shapes :: ShapeOk(s)) && StateOk(st) && Agree(st, seen, mode)
    ensures ReadTypes(TypesText(shapes, mode, st) + "@" + rest, mode, seen) == Some((shapes, rest))
    ensures var text := TypesText(shapes, mode, st);
            if shapes == [] then text == "" else text != "" && text[|text| - 1] != 'Z'
    decreases |shapes|
  {
    hide Agree, ShapeOk, ReadType, TypeText, AfterType, IsMode, StateOk;
    var s := TypesText(shapes, mode, st) + "@" + rest;
    if shapes == [] {
      assert s[1..] == rest;
    } else {
      var first, st' := TypeText(shapes[0], mode, st), AfterType(shapes[0], mode, st);
      var more := TypesText(shapes[1..], mode, st') + "@" + rest;
      TypeReads(shapes[0], mode, st, seen, more);
      assert s == first + more;
      var seen' := ReadType(s, mode, seen).value.2;
      TypesRead(shapes[1..], mode, st', seen', rest);
      assert [shapes[0]] + shapes[1..] == shapes;
      assert s[0] == first[0];
    }
  }

  // ----- the theorem -----

  /** What a signature is, up to how types are written. */
  function MeaningOf(sig: Signature): Option<Meaning> {
    if ShapeOf(sig.result).Some? && ShapesOf(sig.args).Some? then
      Some(Meaning(sig.name, sig.namespaces, ShapeOf(sig.result).value, ShapesOf(sig.args).value))
    else None
  }

  lemma {:induction false} ArgsAreOk(args: seq<Arg>)
    requires ShapesOf(args).Some? && forall a | a in args :: TypeNamed(ArgType(a))
    ensures forall s | s in ShapesOf(args).value :: ShapeOk(s)
    ensures |ShapesOf(args).value| == |args|
  {
    if args != [] {
      ShapesAreOk(ArgType(args[0]));
      ArgsAreOk(args[1..]);
    }
    hide ShapeOk, ShapeOf, TypeNamed;
  }

  const MARK := "\U{0001}?"

  /** The reader recovers the name, the namespaces, the return type and all argument types. */
  lemma RoundTrip(sig: Signature, is64Bit: bool)
    requires SignatureNamed(sig) && Mangled(sig, is64Bit).Some?
    ensures Demangled(Mangled(sig, is64Bit).value, is64Bit) == MeaningOf(sig)
  {
    SignatureParts(sig);
    MangledParts(sig, is64Bit);
    StartOk(sig, is64Bit);
    hide *;
    var mode, shape, shapes := Mode(is64Bit), ShapeOf(sig.result).value, ShapesOf(sig.args).value;
    var names := EnteredAll([], Prefix(sig));
    var st, seen := State(names, []), Seen(names, []);
    var end := AfterResult(shape, shapes, mode, st);
    EndReads(shape, shapes, mode, st, seen);
    NamesRead([], Prefix(sig), "YA" + end);
    var (_, s1, seen1) := ReadType(end, mode, seen).value;
    DemangledIs(NameTexts([], Prefix(sig)) + "@" + ("YA" + end), is64Bit, Prefix(sig), names, end, shape, s1, seen1,
        shapes);
  }

  /** Where both sides start: the names of the prefix, and no types. */
  lemma StartOk(sig: Signature, is64Bit: bool)
    requires Mangled(sig, is64Bit).Some?
    ensures ShapeOf(sig.result).Some? && ShapesOf(sig.args).Some? && IsMode(Mode(is64Bit)) && TableOk<string>([])
    ensures var names := EnteredAll([], Prefix(sig));
            StateOk(State(names, [])) && Agree(State(names, []), Seen(names, []), Mode(is64Bit))
    ensures MeaningOf(sig) == Some(Meaning(sig.name, sig.namespaces, ShapeOf(sig.result).value,
            ShapesOf(sig.args).value))
  {
    hide ShapeOf, ShapesOf, EnteredAll, Prefix;
  }

  /** The parts of a signature whose names are identifiers. */
  lemma SignatureParts(sig: Signature)
    requires SignatureNamed(sig) && ShapeOf(sig.result).Some? && ShapesOf(sig.args).Some?
    ensures ShapeOk(ShapeOf(sig.result).value) && forall s | s in ShapesOf(sig.args).value :: ShapeOk(s)
    ensures Identifiers(Prefix(sig)) && Prefix(sig) != [] && Prefix(sig)[0] == sig.name
    ensures Reverse(Prefix(sig)[1..]) == sig.namespaces
  {
    ShapesAreOk(sig.result);
    ArgsAreOk(sig.args);
    ReverseKeeps(sig.namespaces);
    ReverseTwice(sig.namespaces);
    assert Prefix(sig)[1..] == Reverse(sig.namespaces);
    hide ShapeOk, ShapeOf, ShapesOf, Reverse, TypeNamed;
  }

  /** The reader, when every part reads as it should. */
  lemma DemangledIs(body: string, is64Bit: bool, names: seq<string>, t: Table, end: string, shape: Shape, s1: string,
                    seen: Seen, shapes: seq<Shape>)
    requires ReadNames(body, []) == Some((names, "YA" + end, t)) && names != []
    requires ReadType(end, Mode(is64Bit), Seen(t, [])) == Some((shape, s1, seen))
    requires if shapes == [] then s1 == "XZ"
             else s1 != "XZ" && ReadTypes(s1, Mode(is64Bit), seen) == Some((shapes, "Z"))
    ensures Demangled(MARK + body, is64Bit) == Some(Meaning(names[0], Reverse(names[1..]), shape, shapes))
  {
    StartsAfter(MARK, body);
    StartsAfter("YA", end);
    hide ReadNames, ReadType, ReadTypes, Reverse, Starts;
  }

  /** All that follows YA. */
  function AfterResult(shape: Shape, shapes: seq<Shape>, mode: string, st: State): string
    requires StateOk(st)
  {
    TypeText(shape, mode, st) + ArgsPart(shapes, mode, AfterType(shape, mode, st)) + "Z"
  }

  function ArgsPart(shapes: seq<Shape>, mode: string, st: State): string
    requires StateOk(st)
  {
    if shapes == [] then "X" else TypesText(shapes, mode, st) + "@"
  }

  lemma MangledParts(sig: Signature, is64Bit: bool)
    requires SignatureNamed(sig) && Mangled(sig, is64Bit).Some?
    ensures var shape, shapes := ShapeOf(sig.result).value, ShapesOf(sig.args).value;
            Mangled(sig, is64Bit).value
            == MARK + (NameTexts([], Prefix(sig)) + "@"
                + ("YA" + AfterResult(shape, shapes, Mode(is64Bit), State(EnteredAll([], Prefix(sig)), []))))
  {
    var mode, shape, shapes := Mode(is64Bit), ShapeOf(sig.result).value, ShapesOf(sig.args).value;
    var st := State(EnteredAll([], Prefix(sig)), []);
    var seen := Seen(st.names, []);
    SignatureParts(sig);
    assert Agree(st, seen, mode);
    TypeReads(shape, mode, st, seen, "");
    var st', a, n := AfterType(shape, mode, st), TypeText(shape, mode, st), NameTexts([], Prefix(sig));
    var seen' := ReadType(a + "", mode, seen).value.2;
    assert AfterResult(shape, shapes, mode, st) == a + ArgsPart(shapes, mode, st') + "Z";
    assert Mangled(sig, is64Bit).value == ArgsText(MARK + n + "@" + "YA" + a, shapes, mode, st') + "Z";
    hide *;
    ArgsTextIs(MARK + n + "@" + "YA" + a, shapes, mode, st', seen');
    JoinAll(MARK, n, a, ArgsPart(shapes, mode, st'));
  }

  lemma JoinAll(p: string, n: string, a: string, t: string)
    ensures (p + n + "@" + "YA" + a) + t + "Z" == p + (n + "@" + ("YA" + (a + t + "Z")))
  {
  }

  lemma ArgsAre(before: string, shapes: seq<Shape>, mode: string, st: State)
    requires StateOk(st)
    ensures shapes == [] ==> ArgsText(before, shapes, mode, st) == before + "X" && ArgsPart(shapes, mode, st) == "X"
    ensures shapes != [] ==>
              var r := before + TypesText(shapes, mode, st);
              && ArgsText(before, shapes, mode, st) == (if r != "" && r[|r| - 1] == 'Z' then r else r + "@")
              && ArgsPart(shapes, mode, st) == TypesText(shapes, mode, st) + "@"
  {
    hide TypesText, StateOk;
  }

  lemma EndOfJoin(before: string, text: string)
    requires text != "" && text[|text| - 1] != 'Z'
    ensures var r := before + text; r != "" && r[|r| - 1] != 'Z' && r + "@" == before + (text + "@")
  {
  }

  /** Types never end in Z, so the end of the arguments is always there. */
  lemma ArgsTextIs(before: string, shapes: seq<Shape>, mode: string, st: State, seen: Seen)
    requires IsMode(mode) && (forall s | s in shapes :: ShapeOk(s)) && StateOk(st) && Agree(st, seen, mode)
    ensures ArgsText(before, shapes, mode, st) == before + ArgsPart(shapes, mode, st)
  {
    hide *;
    TypesRead(shapes, mode, st, seen, "");
    ArgsAre(before, shapes, mode, st);
    if shapes != [] {
      EndOfJoin(before, TypesText(shapes, mode, st));
    }
  }

  lemma EndReads(shape: Shape, shapes: seq<Shape>, mode: string, st: State, seen: Seen)
    requires IsMode(mode) && ShapeOk(shape) && (forall s | s in shapes :: ShapeOk(s)) && StateOk(st)
             && Agree(st, seen, mode)
    ensures var r := ReadType(AfterResult(shape, shapes, mode, st), mode, seen);
            && r.Some? && r.value.0 == shape
            && if shapes == [] then r.value.1 == "XZ"
               else r.value.1 != "XZ" && ReadTypes(r.value.1, mode, r.value.2) == Some((shapes, "Z"))
  {
    hide ShapeOk, ReadType, TypeText, TypesText, AfterType, Agree, ReadTypes, StateOk;
    var st' := AfterType(shape, mode, st);
    if shapes == [] {
      TypeReads(shape, mode, st, seen, "XZ");
      assert AfterResult(shape, shapes, mode, st) == TypeText(shape, mode, st) + "XZ";
    } else {
      var text := TypesText(shapes, mode, st');
      var rest := text + "@" + "Z";
      TypeReads(shape, mode, st, seen, rest);
      assert AfterResult(shape, shapes, mode, st) == TypeText(shape, mode, st) + rest;
      TypesRead(shapes, mode, st', ReadType(TypeText(shape, mode, st) + rest, mode, seen).value.2, "Z");
      assert rest[|rest| - 2] == '@';
    }
  }

  /** Two signatures with the same mangled name are the same function. */
  lemma SameNameSameFunction(a: Signature, b: Signature, is64Bit: bool)
    requires SignatureNamed(a) && SignatureNamed(b)
    requires Mangled(a, is64Bit).Some? && Mangled(a, is64Bit) == Mangled(b, is64Bit)
    ensures MeaningOf(a) == MeaningOf(b)
  {
    RoundTrip(a, is64Bit);
    RoundTrip(b, is64Bit);
  }
}
