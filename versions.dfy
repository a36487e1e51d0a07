/**
 * DecimalVersion of the xlutil package: a version a.b.c.d packed into one
 * int with a in the low byte, its range-checked constructor, the byte
 * getters, __str__, parse_decimal_version, the four relational operators
 * and the step_* mutators.
 *
 * Each part is in 0..255, so the source's `a | b << 8 | c << 16 | d << 24`
 * (bytes in disjoint bit ranges) is written as the sum
 * a + b * 2^8 + c * 2^16 + d * 2^24, and `(v >> 8) & 0xff` as
 * (v / 2^8) % 2^8; Dafny's / and % by a positive constant round like
 * Python's >> and &.
 */
module Versions {
  import opened Common

  /** The exceptions the operations raise. */
  datatype VersionError =
    | PartOutOfRange(part: char, n: int)  // RuntimeError: a part outside 0..255
    | NotAnInteger(s: string)             // ValueError raised by int()
    | EmptyVersion                        // RuntimeError: None or "" parsed
    | Malformed(s: string)                // RuntimeError: more than four parts
    | StepOutOfRange(part: char)          // RuntimeError: a step beyond 255

  /** An argument of the constructor: None, an int, or a string for int(). */
  datatype Arg = Missing | IntArg(n: int) | StrArg(s: string)

  const PartMax: int := 255
  const Limit: int := 0x1_0000_0000

  // ---------------------------------------------------------------------
  // Decimal digits
  // ---------------------------------------------------------------------

  predicate IsDigit(c: char) { '0' <= c <= '9' }

  predicate AllDigits(s: string) { forall i :: 0 <= i < |s| ==> IsDigit(s[i]) }

  /** What int() accepts in this model: a non-empty run of decimal digits. */
  predicate IsDecimal(s: string) { |s| > 0 && AllDigits(s) }

  /** The number a run of decimal digits denotes. */
  function DigitsValue(s: string): nat
    requires AllDigits(s)
  {
    if |s| == 0 then 0 else DigitsValue(s[..|s| - 1]) * 10 + (s[|s| - 1] as int - '0' as int)
  }

  function DigitChar(k: int): (c: char)
    requires 0 <= k < 10
    ensures IsDigit(c) && c as int - '0' as int == k
  {
    ('0' as int + k) as char
  }

  /** The text "%d" produces for a non-negative int. */
  function DecimalString(n: nat): (s: string)
    ensures IsDecimal(s) && DigitsValue(s) == n
    ensures '.' !in s
  {
    if n < 10 then
      var s := [DigitChar(n)];
      assert s[..|s| - 1] == [];
      s
    else
      var p := DecimalString(n / 10);
      var s := p + [DigitChar(n % 10)];
      assert s[..|s| - 1] == p;
      assert forall i :: 0 <= i < |s| ==> IsDigit(s[i]);
      s
  }

  // ---------------------------------------------------------------------
  // str.split(".") and its inverse "." .join(...)
  // ---------------------------------------------------------------------

  /** The pieces of s between dots, empty pieces included. */
  function Split(s: string): (r: seq<string>)
    ensures |r| >= 1
    ensures forall i :: 0 <= i < |r| ==> '.' !in r[i]
  {
    if |s| == 0 then [""]
    else
      var rest := Split(s[1..]);
      if s[0] == '.' then [""] + rest
      else [[s[0]] + rest[0]] + rest[1..]
  }

  function Join(pieces: seq<string>): string
    requires |pieces| >= 1
  {
    if |pieces| == 1 then pieces[0] else pieces[0] + "." + Join(pieces[1..])
  }

  /** Joining the pieces of a split gives back the string. */
  lemma {:induction false} JoinSplit(s: string)
    ensures Join(Split(s)) == s
  {
    if |s| > 0 {
      JoinSplit(s[1..]);
      var rest := Split(s[1..]);
      if s[0] == '.' {
        assert Split(s) == [""] + rest;
        assert (([""] + rest)[1..]) == rest;
        assert s == "" + "." + s[1..];
      } else {
        var r := [[s[0]] + rest[0]] + rest[1..];
        assert Split(s) == r;
        if |rest| == 1 {
          assert s == [s[0]] + s[1..];
        } else {
          assert r[1..] == rest[1..];
          assert Join(rest) == rest[0] + "." + Join(rest[1..]);
          assert s == [s[0]] + s[1..];
        }
      }
    }
  }

  lemma {:induction false} SplitNoDot(x: string)
    requires '.' !in x
    ensures Split(x) == [x]
  {
    if |x| > 0 {
      assert '.' !in x[1..];
      SplitNoDot(x[1..]);
      assert x == [x[0]] + x[1..];
    }
  }

  lemma {:induction false} SplitCons(x: string, rest: string)
    requires '.' !in x
    ensures Split(x + "." + rest) == [x] + Split(rest)
  {
    var s := x + "." + rest;
    if |x| == 0 {
      assert s[0] == '.' && s[1..] == rest;
    } else {
      assert s[0] == x[0] && s[1..] == x[1..] + "." + rest;
      assert '.' !in x[1..];
      SplitCons(x[1..], rest);
      assert x == [x[0]] + x[1..];
    }
  }

  /** Splitting a join of dot-free pieces gives back the pieces. */
  lemma {:induction false} SplitJoin(pieces: seq<string>)
    requires |pieces| >= 1
    requires forall i :: 0 <= i < |pieces| ==> '.' !in pieces[i]
    ensures Split(Join(pieces)) == pieces
  {
    if |pieces| == 1 {
      SplitNoDot(pieces[0]);
    } else {
      SplitJoin(pieces[1..]);
      SplitCons(pieces[0], Join(pieces[1..]));
      assert pieces == [pieces[0]] + pieces[1..];
    }
  }

  // ---------------------------------------------------------------------
  // Packing (__init__, get_a .. get_d, value)
  // ---------------------------------------------------------------------

  function Pack(a: int, b: int, c: int, d: int): int
  {
    a + b * 0x100 + c * 0x1_0000 + d * 0x100_0000
  }

  function PartA(v: int): int { v % 0x100 }
  function PartB(v: int): int { (v / 0x100) % 0x100 }
  function PartC(v: int): int { (v / 0x1_0000) % 0x100 }
  function PartD(v: int): int { (v / 0x100_0000) % 0x100 }

  /** The four parts, a first: the key the relational operators compare. */
  function Parts(v: int): seq<int> { [PartA(v), PartB(v), PartC(v), PartD(v)] }

  predicate InRange(n: int) { 0 <= n <= PartMax }

  /** A value a DecimalVersion can hold. */
  predicate IsValue(v: int) { 0 <= v < Limit }

  /** The getters return the parts the value was packed from. */
  lemma PartsOfPack(a: int, b: int, c: int, d: int)
    requires InRange(a) && InRange(b) && InRange(c) && InRange(d)
    ensures IsValue(Pack(a, b, c, d))
    ensures Parts(Pack(a, b, c, d)) == [a, b, c, d]
  {
    var v := Pack(a, b, c, d);
    assert v / 0x100 == b + c * 0x100 + d * 0x1_0000;
    assert v / 0x1_0000 == c + d * 0x100;
    assert v / 0x100_0000 == d;
  }

  /** Every 32-bit value is the packing of its four parts. */
  lemma PackOfParts(v: int)
    requires IsValue(v)
    ensures InRange(PartA(v)) && InRange(PartB(v)) && InRange(PartC(v)) && InRange(PartD(v))
    ensures Pack(PartA(v), PartB(v), PartC(v), PartD(v)) == v
  {
    var q1 := v / 0x100;
    var q2 := q1 / 0x100;
    var q3 := q2 / 0x100;
    assert v == PartA(v) + q1 * 0x100;
    assert q1 == q2 * 0x100 + q1 % 0x100;
    assert q2 == q3 * 0x100 + q2 % 0x100;
    assert q2 == v / 0x1_0000;
    assert q3 == v / 0x100_0000;
    assert q3 < 0x100;
  }

  /** Distinct values have distinct parts. */
  lemma PartsInjective(v: int, w: int)
    requires IsValue(v) && IsValue(w)
    ensures Parts(v) == Parts(w) <==> v == w
  {
    PackOfParts(v);
    PackOfParts(w);
    if Parts(v) == Parts(w) {
      assert PartA(v) == Parts(v)[0] == Parts(w)[0] == PartA(w);
      assert PartB(v) == Parts(v)[1] == Parts(w)[1] == PartB(w);
      assert PartC(v) == Parts(v)[2] == Parts(w)[2] == PartC(w);
      assert PartD(v) == Parts(v)[3] == Parts(w)[3] == PartD(w);
    }
  }

  // ---------------------------------------------------------------------
  // The constructor
  // ---------------------------------------------------------------------

  /** int() of an argument, None standing for 0. */
  function Convert(arg: Arg): (r: Result<int, VersionError>)
    ensures arg.Missing? ==> r == Ok(0)
    ensures arg.IntArg? ==> r == Ok(arg.n)
    ensures arg.StrArg? ==> (r.Ok? <==> IsDecimal(arg.s))
    ensures arg.StrArg? && r.Err? ==> r.error == NotAnInteger(arg.s)
  {
    match arg
    case Missing => Ok(0)
    case IntArg(n) => Ok(n)
    case StrArg(s) => if IsDecimal(s) then Ok(DigitsValue(s)) else Err(NotAnInteger(s))
  }

  /** One part: converted, then range checked. */
  function CheckPart(name: char, arg: Arg): (r: Result<int, VersionError>)
    ensures r.Ok? <==> Convert(arg).Ok? && InRange(Convert(arg).value)
    ensures r.Ok? ==> r.value == Convert(arg).value
    ensures Convert(arg).Ok? && !r.Ok? ==> r.error == PartOutOfRange(name, Convert(arg).value)
  {
    match Convert(arg)
    case Err(e) => Err(e)
    case Ok(n) => if n < 0 || n > PartMax then Err(PartOutOfRange(name, n)) else Ok(n)
  }

  predicate ValidArg(arg: Arg) { Convert(arg).Ok? && InRange(Convert(arg).value) }

  /** DecimalVersion(a, b, c, d): the packed value, or the first part's error. */
  function Create(a: Arg, b: Arg, c: Arg, d: Arg): (r: Result<int, VersionError>)
    ensures r.Ok? <==> ValidArg(a) && ValidArg(b) && ValidArg(c) && ValidArg(d)
    ensures r.Ok? ==> (IsValue(r.value) &&
      Parts(r.value) == [Convert(a).value, Convert(b).value, Convert(c).value, Convert(d).value])
    ensures !ValidArg(a) ==> r == Err(CheckPart('a', a).error)
    ensures ValidArg(a) && !ValidArg(b) ==> r == Err(CheckPart('b', b).error)
    ensures ValidArg(a) && ValidArg(b) && !ValidArg(c) ==> r == Err(CheckPart('c', c).error)
    ensures ValidArg(a) && ValidArg(b) && ValidArg(c) && !ValidArg(d) ==> r == Err(CheckPart('d', d).error)
  {
    match CheckPart('a', a)
    case Err(e) => Err(e)
    case Ok(av) =>
      match CheckPart('b', b)
      case Err(e) => Err(e)
      case Ok(bv) =>
        match CheckPart('c', c)
        case Err(e) => Err(e)
        case Ok(cv) =>
          match CheckPart('d', d)
          case Err(e) => Err(e)
          case Ok(dv) =>
            PartsOfPack(av, bv, cv, dv);
            Ok(Pack(av, bv, cv, dv))
  }

  /** The constructor on plain ints rejects exactly the parts outside 0..255. */
  lemma CreateInts(a: int, b: int, c: int, d: int)
    ensures Create(IntArg(a), IntArg(b), IntArg(c), IntArg(d)).Ok?
        <==> InRange(a) && InRange(b) && InRange(c) && InRange(d)
    ensures InRange(a) && InRange(b) && InRange(c) && InRange(d) ==>
      Create(IntArg(a), IntArg(b), IntArg(c), IntArg(d)) == Ok(Pack(a, b, c, d))
  {
    if InRange(a) && InRange(b) && InRange(c) && InRange(d) {
      PartsOfPack(a, b, c, d);
      var r := Create(IntArg(a), IntArg(b), IntArg(c), IntArg(d));
      PartsInjective(r.value, Pack(a, b, c, d));
    }
  }

  /** Omitted parts are 0. */
  lemma CreateDefaults(a: int)
    requires InRange(a)
    ensures Create(IntArg(a), Missing, Missing, Missing) == Ok(Pack(a, 0, 0, 0))
  {
    PartsOfPack(a, 0, 0, 0);
    var r := Create(IntArg(a), Missing, Missing, Missing);
    PartsInjective(r.value, Pack(a, 0, 0, 0));
  }

  // ---------------------------------------------------------------------
  // __str__ and parse_decimal_version
  // ---------------------------------------------------------------------

  /** "a.b.c.d" when d is not 0, "a.b.c" otherwise. */
  function ToString(v: int): string
  {
    var a, b, c, d := PartA(v), PartB(v), PartC(v), PartD(v);
    if d != 0 then
      DecimalString(a) + "." + DecimalString(b) + "." + DecimalString(c) + "." + DecimalString(d)
    else
      DecimalString(a) + "." + DecimalString(b) + "." + DecimalString(c)
  }

  /** parse_decimal_version; None is Option.None. */
  function Parse(s: Option<string>): (r: Result<int, VersionError>)
    ensures (s.None? || s.value == "") ==> r == Err(EmptyVersion)
    ensures s.Some? && s.value != "" && |Split(s.value)| > 4 ==> r == Err(Malformed(s.value))
    ensures r.Ok? ==> IsValue(r.value)
  {
    if s.None? || s.value == "" then Err(EmptyVersion)
    else
      var strings := Split(s.value);
      var length := |strings|;
      if length == 1 then Create(StrArg(strings[0]), Missing, Missing, Missing)
      else if length == 2 then Create(StrArg(strings[0]), StrArg(strings[1]), Missing, Missing)
      else if length == 3 then Create(StrArg(strings[0]), StrArg(strings[1]), StrArg(strings[2]), Missing)
      else if length == 4 then Create(StrArg(strings[0]), StrArg(strings[1]), StrArg(strings[2]), StrArg(strings[3]))
      else Err(Malformed(s.value))
  }

  /** A parsed string has one to four decimal parts; the missing trailing parts are 0. */
  lemma ParseParts(s: string)
    requires Parse(Some(s)).Ok?
    ensures 1 <= |Split(s)| <= 4
    ensures forall i :: 0 <= i < |Split(s)| ==>
      IsDecimal(Split(s)[i]) && Parts(Parse(Some(s)).value)[i] == DigitsValue(Split(s)[i])
    ensures forall i :: |Split(s)| <= i < 4 ==> Parts(Parse(Some(s)).value)[i] == 0
  {
    var strings := Split(s);
    var r := Parse(Some(s));
    var n := |strings|;
    assert n <= 4;
    var args := seq(4, i requires 0 <= i < 4 => if i < n then StrArg(strings[i]) else Missing);
    assert r == Create(args[0], args[1], args[2], args[3]);
    forall i | 0 <= i < 4
      ensures ValidArg(args[i])
      ensures Parts(r.value)[i] == Convert(args[i]).value
    {
    }
  }

  /** The decimal strings of the parts str() prints. */
  function Pieces(v: int): seq<string>
  {
    var a, b, c, d := PartA(v), PartB(v), PartC(v), PartD(v);
    if d != 0 then [DecimalString(a), DecimalString(b), DecimalString(c), DecimalString(d)]
    else [DecimalString(a), DecimalString(b), DecimalString(c)]
  }

  lemma JoinThree(x: string, y: string, z: string)
    ensures Join([x, y, z]) == x + "." + y + "." + z
  {
    assert [x, y, z][1..] == [y, z];
    assert [y, z][1..] == [z];
    assert Join([y, z]) == y + "." + z;
    assert Join([x, y, z]) == x + "." + (y + "." + z);
  }

  lemma JoinFour(w: string, x: string, y: string, z: string)
    ensures Join([w, x, y, z]) == w + "." + x + "." + y + "." + z
  {
    assert [w, x, y, z][1..] == [x, y, z];
    JoinThree(x, y, z);
  }

  /** str() is the dot-join of its pieces. */
  lemma JoinPieces(v: int)
    ensures Join(Pieces(v)) == ToString(v)
  {
    var sa, sb, sc := DecimalString(PartA(v)), DecimalString(PartB(v)), DecimalString(PartC(v));
    if PartD(v) != 0 {
      JoinFour(sa, sb, sc, DecimalString(PartD(v)));
    } else {
      JoinThree(sa, sb, sc);
    }
  }

  /** str() splits into the decimal strings of its parts, four exactly when d is not 0. */
  lemma SplitToString(v: int)
    ensures Split(ToString(v)) == Pieces(v)
  {
    JoinPieces(v);
    SplitJoin(Pieces(v));
  }

  /** Parsing str(v) gives v back. */
  lemma ParseToString(v: int)
    requires IsValue(v)
    ensures Parse(Some(ToString(v))) == Ok(v)
  {
    PackOfParts(v);
    SplitToString(v);
    var r := Parse(Some(ToString(v)));
    assert ToString(v) != "" by {
      assert |DecimalString(PartA(v))| > 0;
    }
    if PartD(v) != 0 {
      assert |Split(ToString(v))| == 4;
    } else {
      assert |Split(ToString(v))| == 3;
    }
    assert r.Ok?;
    assert Parts(r.value) == Parts(v);
    PartsInjective(r.value, v);
  }

  // ---------------------------------------------------------------------
  // Relational operators (__eq__, __lt__, __le__, __gt__, __ge__)
  // ---------------------------------------------------------------------

  /** __eq__ between two DecimalVersions compares the values. */
  predicate Eq(v: int, w: int) { v == w }

  /** __lt__: a, then b, then c, then d decide. */
  predicate Lt(v: int, w: int)
  {
    if PartA(v) < PartA(w) then true
    else if PartA(v) > PartA(w) then false
    else if PartB(v) < PartB(w) then true
    else if PartB(v) > PartB(w) then false
    else if PartC(v) < PartC(w) then true
    else if PartC(v) > PartC(w) then false
    else PartD(v) < PartD(w)
  }

  /** __le__: as __lt__, with d compared by <=. */
  predicate Le(v: int, w: int)
  {
    if PartA(v) < PartA(w) then true
    else if PartA(v) > PartA(w) then false
    else if PartB(v) < PartB(w) then true
    else if PartB(v) > PartB(w) then false
    else if PartC(v) < PartC(w) then true
    else if PartC(v) > PartC(w) then false
    else PartD(v) <= PartD(w)
  }

  /** __gt__: as __lt__ with the comparisons mirrored. */
  predicate Gt(v: int, w: int)
  {
    if PartA(v) > PartA(w) then true
    else if PartA(v) < PartA(w) then false
    else if PartB(v) > PartB(w) then true
    else if PartB(v) < PartB(w) then false
    else if PartC(v) > PartC(w) then true
    else if PartC(v) < PartC(w) then false
    else PartD(v) > PartD(w)
  }

  /** __ge__: as __le__ with the comparisons mirrored. */
  predicate Ge(v: int, w: int)
  {
    if PartA(v) > PartA(w) then true
    else if PartA(v) < PartA(w) then false
    else if PartB(v) > PartB(w) then true
    else if PartB(v) < PartB(w) then false
    else if PartC(v) > PartC(w) then true
    else if PartC(v) < PartC(w) then false
    else PartD(v) >= PartD(w)
  }

  /** Lexicographic order on sequences of equal length: the reference. */
  predicate LexLess(s: seq<int>, t: seq<int>)
    requires |s| == |t|
  {
    |s| > 0 && (s[0] < t[0] || (s[0] == t[0] && LexLess(s[1..], t[1..])))
  }

  lemma {:induction false} LexLessIrreflexive(s: seq<int>)
    ensures !LexLess(s, s)
  {
    if |s| > 0 {
      LexLessIrreflexive(s[1..]);
    }
  }

  lemma {:induction false} LexLessTransitive(s: seq<int>, t: seq<int>, u: seq<int>)
    requires |s| == |t| == |u|
    requires LexLess(s, t) && LexLess(t, u)
    ensures LexLess(s, u)
  {
    if s[0] == t[0] && t[0] == u[0] {
      LexLessTransitive(s[1..], t[1..], u[1..]);
    }
  }

  lemma {:induction false} LexLessTotal(s: seq<int>, t: seq<int>)
    requires |s| == |t|
    ensures LexLess(s, t) || s == t || LexLess(t, s)
  {
    if |s| > 0 && s[0] == t[0] {
      LexLessTotal(s[1..], t[1..]);
      if s[1..] == t[1..] {
        assert s == [s[0]] + s[1..] && t == [t[0]] + t[1..];
      }
    }
  }

  /** __lt__ is the lexicographic order of (a, b, c, d). */
  lemma LtIsLexicographic(v: int, w: int)
    ensures Lt(v, w) <==> LexLess(Parts(v), Parts(w))
  {
    var p, q := Parts(v), Parts(w);
    assert p[1..] == [PartB(v), PartC(v), PartD(v)] && q[1..] == [PartB(w), PartC(w), PartD(w)];
    assert p[1..][1..] == [PartC(v), PartD(v)] && q[1..][1..] == [PartC(w), PartD(w)];
    assert p[1..][1..][1..] == [PartD(v)] && q[1..][1..][1..] == [PartD(w)];
    assert !LexLess(p[1..][1..][1..][1..], q[1..][1..][1..][1..]);
    assert LexLess(p[1..][1..][1..], q[1..][1..][1..]) <==> PartD(v) < PartD(w);
    assert LexLess(p[1..][1..], q[1..][1..]) <==>
      PartC(v) < PartC(w) || (PartC(v) == PartC(w) && PartD(v) < PartD(w));
    assert LexLess(p[1..], q[1..]) <==>
      PartB(v) < PartB(w) || (PartB(v) == PartB(w) && LexLess(p[1..][1..], q[1..][1..]));
  }

  /** __lt__ is a strict total order on the 32-bit values. */
  lemma LtStrictTotalOrder(u: int, v: int, w: int)
    requires IsValue(u) && IsValue(v) && IsValue(w)
    ensures !Lt(v, v)
    ensures Lt(u, v) && Lt(v, w) ==> Lt(u, w)
    ensures Lt(v, w) || v == w || Lt(w, v)
  {
    LtIsLexicographic(v, v);
    LexLessIrreflexive(Parts(v));
    LtIsLexicographic(u, v);
    LtIsLexicographic(v, w);
    LtIsLexicographic(u, w);
    LtIsLexicographic(w, v);
    if Lt(u, v) && Lt(v, w) {
      LexLessTransitive(Parts(u), Parts(v), Parts(w));
    }
    LexLessTotal(Parts(v), Parts(w));
    PartsInjective(v, w);
  }

  /** __le__ holds exactly when __lt__ or __eq__ does. */
  lemma LeIsLtOrEq(v: int, w: int)
    requires IsValue(v) && IsValue(w)
    ensures Le(v, w) <==> Lt(v, w) || Eq(v, w)
  {
    PartsInjective(v, w);
  }

  /** __gt__ and __ge__ are __lt__ and __le__ with the operands swapped. */
  lemma GtGeMirror(v: int, w: int)
    ensures Gt(v, w) <==> Lt(w, v)
    ensures Ge(v, w) <==> Le(w, v)
  {
  }

  /** __lt__ is not the order of the packed values: 0.0.0.1 < 1.0.0.0. */
  lemma LtIsNotNumeric()
    ensures Parts(0x100_0000) == [0, 0, 0, 1] && Parts(1) == [1, 0, 0, 0]
    ensures Lt(0x100_0000, 1) && 1 < 0x100_0000
  {
  }

  // ---------------------------------------------------------------------
  // step_major, step_minor, step_decimal, step_micro
  // ---------------------------------------------------------------------

  /** step_major: (a + 1).0.0.0, or an error when a is 255. */
  function StepMajor(v: int): (r: Result<int, VersionError>)
    requires IsValue(v)
    ensures r.Ok? <==> PartA(v) < PartMax
    ensures r.Ok? ==> IsValue(r.value) && Parts(r.value) == [PartA(v) + 1, 0, 0, 0] && Lt(v, r.value)
    ensures r.Err? ==> r.error == StepOutOfRange('a')
  {
    PackOfParts(v);
    var a := PartA(v) + 1;
    if a > PartMax then Err(StepOutOfRange('a'))
    else
      PartsOfPack(a, 0, 0, 0);
      Ok(Pack(a, 0, 0, 0))
  }

  /** step_minor: a.(b + 1).0.0, or an error when b is 255. */
  function StepMinor(v: int): (r: Result<int, VersionError>)
    requires IsValue(v)
    ensures r.Ok? <==> PartB(v) < PartMax
    ensures r.Ok? ==> IsValue(r.value) && Parts(r.value) == [PartA(v), PartB(v) + 1, 0, 0] && Lt(v, r.value)
    ensures r.Err? ==> r.error == StepOutOfRange('b')
  {
    PackOfParts(v);
    var b := PartB(v) + 1;
    if b > PartMax then Err(StepOutOfRange('b'))
    else
      PartsOfPack(PartA(v), b, 0, 0);
      Ok(Pack(PartA(v), b, 0, 0))
  }

  /** step_decimal: a.b.(c + 1).0, or an error when c is 255. */
  function StepDecimal(v: int): (r: Result<int, VersionError>)
    requires IsValue(v)
    ensures r.Ok? <==> PartC(v) < PartMax
    ensures r.Ok? ==> IsValue(r.value) && Parts(r.value) == [PartA(v), PartB(v), PartC(v) + 1, 0] && Lt(v, r.value)
    ensures r.Err? ==> r.error == StepOutOfRange('c')
  {
    PackOfParts(v);
    var c := PartC(v) + 1;
    if c > PartMax then Err(StepOutOfRange('c'))
    else
      PartsOfPack(PartA(v), PartB(v), c, 0);
      Ok(Pack(PartA(v), PartB(v), c, 0))
  }

  /** step_micro: a.b.c.(d + 1), or an error when d is 255. */
  function StepMicro(v: int): (r: Result<int, VersionError>)
    requires IsValue(v)
    ensures r.Ok? <==> PartD(v) < PartMax
    ensures r.Ok? ==> IsValue(r.value) && Parts(r.value) == [PartA(v), PartB(v), PartC(v), PartD(v) + 1] && Lt(v, r.value)
    ensures r.Err? ==> r.error == StepOutOfRange('d')
  {
    PackOfParts(v);
    var d := PartD(v) + 1;
    if d > PartMax then Err(StepOutOfRange('d'))
    else
      PartsOfPack(PartA(v), PartB(v), PartC(v), d);
      Ok(Pack(PartA(v), PartB(v), PartC(v), d))
  }

  // ---------------------------------------------------------------------
  // The object
  // ---------------------------------------------------------------------

  /** A DecimalVersion object: `_value` is the only state. */
  class DecimalVersion {
    var value: int

    ghost predicate Valid()
      reads this
    {
      IsValue(value)
    }

    /** An object holding the value v; New below is the checking constructor. */
    constructor (v: int)
      requires IsValue(v)
      ensures Valid() && value == v
    {
      value := v;
    }

    /** DecimalVersion(a, b, c, d): a new object, or the error it raises. */
    static method New(a: Arg, b: Arg, c: Arg, d: Arg) returns (r: Result<DecimalVersion, VersionError>)
      ensures Create(a, b, c, d).Ok? ==>
        r.Ok? && fresh(r.value) && r.value.Valid() && r.value.value == Create(a, b, c, d).value
      ensures Create(a, b, c, d).Err? ==> r == Err(Create(a, b, c, d).error)
    {
      var created := Create(a, b, c, d);
      if created.Err? {
        return Err(created.error);
      }
      var dv := new DecimalVersion(created.value);
      return Ok(dv);
    }

    /** `value = n` for an int n. */
    method SetInt(n: int)
      requires IsValue(n)
      modifies this
      ensures Valid() && value == n
    {
      value := n;
    }

    /** `value = s` for a string s: parsed, or raises and keeps the value. */
    method SetString(s: string) returns (st: Status<VersionError>)
      requires Valid()
      modifies this
      ensures Valid()
      ensures Parse(Some(s)).Ok? ==> st == Success && value == Parse(Some(s)).value
      ensures Parse(Some(s)).Err? ==> st == Failure(Parse(Some(s)).error) && value == old(value)
    {
      var parsed := Parse(Some(s));
      if parsed.Err? {
        return Failure(parsed.error);
      }
      value := parsed.value;
      return Success;
    }

    /** `value = other` for another DecimalVersion. */
    method SetVersion(other: DecimalVersion)
      requires other.Valid()
      modifies this
      ensures Valid() && value == old(other.value)
    {
      value := other.value;
    }

    method DoStepMajor() returns (st: Status<VersionError>)
      requires Valid()
      modifies this
      ensures Valid()
      ensures StepMajor(old(value)).Ok? ==> st == Success && value == StepMajor(old(value)).value
      ensures StepMajor(old(value)).Err? ==> st == Failure(StepOutOfRange('a')) && value == old(value)
    {
      var a := PartA(value) + 1;
      if a > PartMax {
        return Failure(StepOutOfRange('a'));
      }
      value := Create(IntArg(a), Missing, Missing, Missing).value;
      CreateDefaults(a);
      return Success;
    }

    method DoStepMinor() returns (st: Status<VersionError>)
      requires Valid()
      modifies this
      ensures Valid()
      ensures StepMinor(old(value)).Ok? ==> st == Success && value == StepMinor(old(value)).value
      ensures StepMinor(old(value)).Err? ==> st == Failure(StepOutOfRange('b')) && value == old(value)
    {
      PackOfParts(value);
      var a := PartA(value);
      var b := PartB(value) + 1;
      if b > PartMax {
        return Failure(StepOutOfRange('b'));
      }
      CreateInts(a, b, 0, 0);
      value := Create(IntArg(a), IntArg(b), IntArg(0), IntArg(0)).value;
      return Success;
    }

    method DoStepDecimal() returns (st: Status<VersionError>)
      requires Valid()
      modifies this
      ensures Valid()
      ensures StepDecimal(old(value)).Ok? ==> st == Success && value == StepDecimal(old(value)).value
      ensures StepDecimal(old(value)).Err? ==> st == Failure(StepOutOfRange('c')) && value == old(value)
    {
      PackOfParts(value);
      var a, b := PartA(value), PartB(value);
      var c := PartC(value) + 1;
      if c > PartMax {
        return Failure(StepOutOfRange('c'));
      }
      CreateInts(a, b, c, 0);
      value := Create(IntArg(a), IntArg(b), IntArg(c), IntArg(0)).value;
      return Success;
    }

    method DoStepMicro() returns (st: Status<VersionError>)
      requires Valid()
      modifies this
      ensures Valid()
      ensures StepMicro(old(value)).Ok? ==> st == Success && value == StepMicro(old(value)).value
      ensures StepMicro(old(value)).Err? ==> st == Failure(StepOutOfRange('d')) && value == old(value)
    {
      PackOfParts(value);
      var a, b, c := PartA(value), PartB(value), PartC(value);
      var d := PartD(value) + 1;
      if d > PartMax {
        return Failure(StepOutOfRange('d'));
      }
      CreateInts(a, b, c, d);
      value := Create(IntArg(a), IntArg(b), IntArg(c), IntArg(d)).value;
      return Success;
    }
  }
}
