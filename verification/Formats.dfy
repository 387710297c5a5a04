// Text overrides (claw/claw_text.c): a replacement for a compiled-in printf format
// is used only when it consumes the same arguments.

module Formats {
  import opened CStrings

  const OUT_MAX: nat := 64

  predicate IsFlag(c: char) { c in "-+ #0" }
  predicate IsDigit(c: char) { '0' <= c <= '9' }
  predicate IsLength(c: char) { c in "hlLzjt" }

  // ---- the scanner, on values ----

  function SkipFlags(s: string): (r: string)
    ensures |r| <= |s|
  {
    if s != "" && IsFlag(s[0]) then SkipFlags(s[1..]) else s
  }

  function SkipDigits(s: string): (r: string)
    ensures |r| <= |s|
  {
    if s != "" && IsDigit(s[0]) then SkipDigits(s[1..]) else s
  }

  // A `*` is recorded, digits are not.
  function Star(s: string): string { if s != "" && s[0] == '*' then "*" else "" }

  function AfterNumber(s: string): (r: string)
    ensures |r| <= |s|
  {
    if s != "" && s[0] == '*' then s[1..] else SkipDigits(s)
  }

  function LengthOf(s: string): nat
  {
    if s == "" || !IsLength(s[0]) then 0
    else if |s| == 1 || !IsLength(s[1]) then 1
    else 2
  }

  // What width and precision add, and what is left.
  function Numbers(s: string): (r: (string, string))
    ensures |r.1| <= |s|
  {
    var w, a := Star(s), AfterNumber(s);
    if a != "" && a[0] == '.' then (w + Star(a[1..]), AfterNumber(a[1..])) else (w, a)
  }

  // What one conversion adds, s being what follows its flags, and what is left.
  function Conversion(s: string): (r: (string, string))
    ensures |r.1| <= |s|
  {
    var (w, b) := Numbers(s);
    var n := LengthOf(b);
    if n == |b| then (w, "") else (w + b[..n + 1], b[n + 1..])
  }

  function Specifiers(s: string): string
    decreases |s|
  {
    if s == "" then ""
    else if s[0] != '%' then Specifiers(s[1..])
    else if |s| == 1 then ""
    else if s[1] == '%' then Specifiers(s[2..])
    else
      var (out, rest) := Conversion(SkipFlags(s[1..]));
      out + Specifiers(rest)
  }

  predicate Compatible(fallback: string, candidate: string)
  {
    && |Specifiers(fallback)| < OUT_MAX && |Specifiers(candidate)| < OUT_MAX
    && Specifiers(fallback) == Specifiers(candidate)
  }

  // ---- well-formed formats (section 7.21.6.1 of ISO C11) ----

  datatype Number = Literal(digits: string) | FromArgument

  datatype Length = Plain | HH | H | L | LL | J | Z | T | BigL

  datatype Piece =
    | Text(c: char)
    | Percent
    | Convert(flags: string, width: Option<Number>, prec: Option<Number>, len: Length, ty: char)

  predicate Digits(s: string) { forall i :: 0 <= i < |s| ==> IsDigit(s[i]) }

  // A width does not start with 0, which would be a flag; a precision may be empty.
  predicate WidthOk(w: Option<Number>)
  {
    w.Some? && w.value.Literal? ==> var d := w.value.digits; d != "" && d[0] != '0' && Digits(d)
  }

  predicate PrecOk(p: Option<Number>)
  {
    p.Some? && p.value.Literal? ==> Digits(p.value.digits)
  }

  predicate IsType(c: char) { c in "diouxXfFeEgGaAcspn" }

  predicate WellFormed(p: Piece)
  {
    match p
    case Text(c) => c != '%'
    case Percent => true
    case Convert(flags, width, prec, len, ty) =>
      (forall i :: 0 <= i < |flags| ==> IsFlag(flags[i])) && WidthOk(width) && PrecOk(prec) && IsType(ty)
  }

  function NumberText(n: Number): string
  {
    if n.FromArgument? then "*" else n.digits
  }

  function LengthText(l: Length): string
  {
    match l
    case Plain => "" case HH => "hh" case H => "h" case L => "l" case LL => "ll"
    case J => "j" case Z => "z" case T => "t" case BigL => "L"
  }

  function Tail(len: Length, ty: char): string { LengthText(len) + [ty] }

  function Render(p: Piece): string
  {
    match p
    case Text(c) => [c]
    case Percent => "%%"
    case Convert(flags, width, prec, len, ty) =>
      "%" + flags + (if width.Some? then NumberText(width.value) else "")
      + (if prec.Some? then "." + NumberText(prec.value) else "") + Tail(len, ty)
  }

  function RenderAll(ps: seq<Piece>): string
  {
    if ps == [] then "" else Render(ps[0]) + RenderAll(ps[1..])
  }

  // A specifier that takes an argument: a `*`, or a conversion and its length.
  datatype Spec = Asterisk | Value(len: Length, ty: char)

  function StarSpec(n: Option<Number>): seq<Spec>
  {
    if n.Some? && n.value.FromArgument? then [Asterisk] else []
  }

  function SpecsOf(p: Piece): seq<Spec>
  {
    if p.Convert? then StarSpec(p.width) + StarSpec(p.prec) + [Value(p.len, p.ty)] else []
  }

  function Specs(ps: seq<Piece>): seq<Spec>
  {
    if ps == [] then [] else SpecsOf(ps[0]) + Specs(ps[1..])
  }

  // ---- the arguments printf takes (section 7.21.6.1 of ISO C11) ----

  datatype Width = Promoted | Long | LongLong | Max | Size | PtrDiff

  // The type of an argument after the default promotions. `Target` is what %n
  // writes to; `Undefined` is a length the standard gives no meaning with a letter.
  datatype ArgType =
    | Int(w: Width) | Unsigned(w: Width)
    | Double | LongDouble
    | WideInt | String | WideString | Pointer
    | Target(len: Length)
    | Undefined(len: Length, ty: char)

  // What an integer conversion expects; shorter types arrive promoted to int.
  function Integer(len: Length, signed: bool): Option<ArgType>
  {
    match len
    case HH => Some(Int(Promoted))
    case H => Some(Int(Promoted))
    case Plain => Some(if signed then Int(Promoted) else Unsigned(Promoted))
    case L => Some(if signed then Int(Long) else Unsigned(Long))
    case LL => Some(if signed then Int(LongLong) else Unsigned(LongLong))
    case J => Some(if signed then Int(Max) else Unsigned(Max))
    case Z => Some(if signed then Int(Size) else Unsigned(Size))
    case T => Some(if signed then Int(PtrDiff) else Unsigned(PtrDiff))
    case BigL => None
  }

  function Meaning(len: Length, ty: char): Option<ArgType>
  {
    if ty in "di" then Integer(len, true)
    else if ty in "ouxX" then Integer(len, false)
    else if ty in "fFeEgGaA" then
      if len.Plain? || len.L? then Some(Double) else if len.BigL? then Some(LongDouble) else None
    else if ty == 'c' then
      if len.Plain? then Some(Int(Promoted)) else if len.L? then Some(WideInt) else None
    else if ty == 's' then
      if len.Plain? then Some(String) else if len.L? then Some(WideString) else None
    else if ty == 'p' then (if len.Plain? then Some(Pointer) else None)
    else if len.BigL? then None
    else Some(Target(len))
  }

  function TypeOf(sp: Spec): ArgType
  {
    if sp.Asterisk? then Int(Promoted)
    else
      var m := Meaning(sp.len, sp.ty);
      if m.Some? then m.value else Undefined(sp.len, sp.ty)
  }

  function Types(sp: seq<Spec>): (r: seq<ArgType>)
  {
    seq(|sp|, i requires 0 <= i < |sp| => TypeOf(sp[i]))
  }

  // The types of the arguments a format takes, in order.
  function Arguments(ps: seq<Piece>): seq<ArgType>
  {
    Types(Specs(ps))
  }

  // ---- the encoding, and why it can be read back ----

  function Encode1(a: Spec): string
  {
    if a.Asterisk? then "*" else Tail(a.len, a.ty)
  }

  function Encode(az: seq<Spec>): string
  {
    if az == [] then "" else Encode1(az[0]) + Encode(az[1..])
  }

  predicate Proper(az: seq<Spec>)
  {
    forall i :: 0 <= i < |az| ==> ProperOne(az[i])
  }

  function DecodeLength(s: string): Length
    requires s != ""
  {
    if "hh" <= s then HH else if s[0] == 'h' then H
    else if "ll" <= s then LL else if s[0] == 'l' then L
    else if s[0] == 'j' then J else if s[0] == 'z' then Z
    else if s[0] == 't' then T else if s[0] == 'L' then BigL
    else Plain
  }

  lemma DecodeTail(len: Length, ty: char, rest: string)
    requires IsType(ty)
    ensures var s := Tail(len, ty) + rest;
      DecodeLength(s) == len && s[|LengthText(len)|] == ty && s[|LengthText(len)| + 1..] == rest
      && s[0] != '*'
  {
    var s := Tail(len, ty) + rest;
    assert s[|LengthText(len)| + 1..] == rest;
    TypeIsNoLength(ty);
    assert "hh" <= s ==> s[1] == 'h';
    assert "ll" <= s ==> s[1] == 'l';
    assert s[0] == if len.Plain? then ty else LengthText(len)[0];
    assert len.H? || len.L? ==> s[1] == ty;
  }

  lemma TypeIsNoLength(c: char)
    requires IsType(c)
    ensures !IsLength(c) && !IsFlag(c) && !IsDigit(c) && c != '*' && c != '.' && c != '%'
  {
  }

  predicate ProperOne(a: Spec) { a.Value? ==> IsType(a.ty) }

  lemma FirstInjective(a: Spec, x: string, b: Spec, y: string)
    requires ProperOne(a) && ProperOne(b) && Encode1(a) + x == Encode1(b) + y
    ensures a == b && x == y
  {
    var s := Encode1(a) + x;
    if a.Value? { DecodeTail(a.len, a.ty, x); }
    if b.Value? { DecodeTail(b.len, b.ty, y); }
    assert s[0] == '*' <==> a.Asterisk?;
    assert s[0] == '*' <==> b.Asterisk?;
    assert a == b;
    assert s[|Encode1(a)|..] == x && (Encode1(b) + y)[|Encode1(b)|..] == y;
  }

  // The encoding of a list of arguments is uniquely decodable.
  lemma {:induction false} EncodeInjective(a: seq<Spec>, b: seq<Spec>)
    requires Proper(a) && Proper(b) && Encode(a) == Encode(b)
    ensures a == b
    decreases |a|
  {
    assert forall c: Spec :: Encode1(c) != "";
    hide Encode1;
    if a != [] && b != [] {
      FirstInjective(a[0], Encode(a[1..]), b[0], Encode(b[1..]));
      EncodeInjective(a[1..], b[1..]);
      assert a == [a[0]] + a[1..] && b == [b[0]] + b[1..];
    }
  }

  lemma {:induction false} EncodeConcat(a: seq<Spec>, b: seq<Spec>)
    ensures Encode(a + b) == Encode(a) + Encode(b)
  {
    if a == [] {
      assert a + b == b;
    } else {
      assert (a + b)[1..] == a[1..] + b;
      EncodeConcat(a[1..], b);
    }
  }

  // ---- scanning what was rendered ----

  function OptText(n: Option<Number>): string
  {
    if n.Some? then NumberText(n.value) else ""
  }

  function StarText(n: Option<Number>): string
  {
    if n.Some? && n.value.FromArgument? then "*" else ""
  }

  lemma {:induction false} SkipDigitsOver(d: string, t: string)
    requires Digits(d) && t != "" && !IsDigit(t[0])
    ensures SkipDigits(d + t) == t
  {
    if d == "" {
      assert d + t == t;
    } else {
      assert (d + t)[1..] == d[1..] + t;
      SkipDigitsOver(d[1..], t);
    }
  }

  lemma NumberOver(n: Option<Number>, t: string)
    requires PrecOk(n) && t != "" && !IsDigit(t[0]) && t[0] != '*'
    ensures Star(OptText(n) + t) == StarText(n) && AfterNumber(OptText(n) + t) == t
  {
    var s := OptText(n) + t;
    if n.Some? && n.value.FromArgument? {
      assert s[1..] == t;
    } else {
      var d := OptText(n);
      assert d != "" ==> IsDigit(d[0]);
      SkipDigitsOver(d, t);
    }
  }

  lemma {:induction false} SkipFlagsOver(f: string, t: string)
    requires (forall i :: 0 <= i < |f| ==> IsFlag(f[i])) && t != "" && !IsFlag(t[0])
    ensures SkipFlags(f + t) == t
  {
    if f == "" {
      assert f + t == t;
    } else {
      assert (f + t)[1..] == f[1..] + t;
      SkipFlagsOver(f[1..], t);
    }
  }

  lemma LengthOver(len: Length, ty: char, rest: string)
    requires IsType(ty)
    ensures var s := Tail(len, ty) + rest;
      LengthOf(s) == |LengthText(len)| && s[..|LengthText(len)| + 1] == Tail(len, ty)
      && s[|LengthText(len)| + 1..] == rest
      && s[0] != '.' && s[0] != '*' && s[0] != '%' && !IsDigit(s[0]) && !IsFlag(s[0])
  {
    var s := Tail(len, ty) + rest;
    TypeIsNoLength(ty);
    assert s[|LengthText(len)| + 1..] == rest;
    assert s[..|LengthText(len)| + 1] == Tail(len, ty);
    assert s[|LengthText(len)|] == ty;
    assert s[0] == if len.Plain? then ty else LengthText(len)[0];
  }

  function PrecText(p: Option<Number>): string
  {
    if p.Some? then "." + NumberText(p.value) else ""
  }

  lemma NumbersOver(w: Option<Number>, p: Option<Number>, b: string)
    requires PrecOk(w) && PrecOk(p) && b != "" && !IsDigit(b[0]) && b[0] != '*' && b[0] != '.'
    ensures Numbers(OptText(w) + (PrecText(p) + b)) == (StarText(w) + StarText(p), b)
  {
    hide Star, AfterNumber;
    var a := PrecText(p) + b;
    if p.Some? {
      assert a[0] == '.' && a[1..] == OptText(p) + b;
      NumberOver(p, b);
    } else {
      assert a == b && StarText(w) + StarText(p) == StarText(w);
    }
    NumberOver(w, a);
  }

  // A rendered conversion, its flags skipped.
  lemma ConversionOver(p: Piece, rest: string)
    requires p.Convert? && WellFormed(p)
    ensures Conversion(OptText(p.width) + (PrecText(p.prec) + (Tail(p.len, p.ty) + rest)))
         == (StarText(p.width) + StarText(p.prec) + Tail(p.len, p.ty), rest)
  {
    LengthOver(p.len, p.ty, rest);
    NumbersOver(p.width, p.prec, Tail(p.len, p.ty) + rest);
    hide Tail, LengthOf, Numbers, LengthText, IsFlag;
  }

  function OutputOf(p: Piece): string
  {
    if p.Convert? then StarText(p.width) + StarText(p.prec) + Tail(p.len, p.ty) else ""
  }

  lemma PieceOver(p: Piece, rest: string)
    requires WellFormed(p)
    ensures Specifiers(Render(p) + rest) == OutputOf(p) + Specifiers(rest)
  {
    var s := Render(p) + rest;
    match p
    case Text(c) =>
      assert s[1..] == rest;
    case Percent =>
      assert s[2..] == rest;
    case Convert(flags, width, prec, len, ty) =>
      var body := OptText(width) + (PrecText(prec) + (Tail(len, ty) + rest));
      RenderIs(p, rest);
      BodyStart(p, rest);
      ConversionOver(p, rest);
      ConvertOver(flags, body);
  }

  lemma RenderIs(p: Piece, rest: string)
    requires p.Convert?
    ensures Render(p) + rest
         == "%" + (p.flags + (OptText(p.width) + (PrecText(p.prec) + (Tail(p.len, p.ty) + rest))))
  {
    hide Tail, NumberText;
  }

  lemma ConvertOver(flags: string, body: string)
    requires forall i :: 0 <= i < |flags| ==> IsFlag(flags[i])
    requires body != "" && !IsFlag(body[0]) && body[0] != '%'
    ensures var (out, rest) := Conversion(body); Specifiers("%" + (flags + body)) == out + Specifiers(rest)
  {
    var s := "%" + (flags + body);
    SkipFlagsOver(flags, body);
    assert s[1..] == flags + body;
    assert s[1] == (flags + body)[0];
    assert s[1] != '%' by { assert flags != "" ==> IsFlag(flags[0]); }
    hide Conversion, SkipFlags, IsFlag;
  }

  lemma BodyStart(p: Piece, rest: string)
    requires p.Convert? && WellFormed(p)
    ensures var body := OptText(p.width) + (PrecText(p.prec) + (Tail(p.len, p.ty) + rest));
      body != "" && !IsFlag(body[0]) && body[0] != '%'
  {
    LengthOver(p.len, p.ty, rest);
    hide Tail, LengthOf;
    assert p.width.Some? && p.width.value.Literal? ==> IsDigit(p.width.value.digits[0]);
  }

  lemma OutputEncodes(p: Piece)
    ensures OutputOf(p) == Encode(SpecsOf(p))
  {
    hide Tail;
    if p.Convert? {
      var v := [Value(p.len, p.ty)];
      assert Encode(v) == Encode1(v[0]) + Encode(v[1..]);
      assert Encode([Asterisk]) == "*" by { assert [Asterisk][1..] == []; }
      EncodeConcat(StarSpec(p.width) + StarSpec(p.prec), v);
      EncodeConcat(StarSpec(p.width), StarSpec(p.prec));
      assert Encode(StarSpec(p.width)) == StarText(p.width) && Encode(StarSpec(p.prec)) == StarText(p.prec);
    }
  }

  // The scanner writes down exactly the arguments a well-formed format consumes,
  // in order, and goes on with what follows it.
  lemma {:induction false} ScanIsEncoding(ps: seq<Piece>, rest: string)
    requires forall p :: p in ps ==> WellFormed(p)
    ensures Specifiers(RenderAll(ps) + rest) == Encode(Specs(ps)) + Specifiers(rest)
  {
    if ps == [] {
      assert RenderAll(ps) + rest == rest;
      assert Encode(Specs(ps)) + Specifiers(rest) == Specifiers(rest);
    } else {
      hide Specifiers, Render, OutputOf, SpecsOf, WellFormed, Encode;
      var p, t := ps[0], RenderAll(ps[1..]) + rest;
      assert RenderAll(ps) + rest == Render(p) + t;
      PieceOver(p, t);
      OutputEncodes(p);
      ScanIsEncoding(ps[1..], rest);
      EncodeConcat(SpecsOf(p), Specs(ps[1..]));
      hide *;
      Glue(OutputOf(p), Encode(Specs(ps[1..])), Specifiers(rest));
    }
  }

  lemma Glue(x: string, y: string, z: string)
    ensures x + (y + z) == x + y + z
  {
  }

  lemma {:induction false} SpecsProper(ps: seq<Piece>)
    requires forall p :: p in ps ==> WellFormed(p)
    ensures Proper(Specs(ps))
  {
    if ps != [] {
      SpecsProper(ps[1..]);
      assert WellFormed(ps[0]);
      assert Proper(SpecsOf(ps[0]));
    }
  }

  predicate AllWellFormed(ps: seq<Piece>)
  {
    forall p :: p in ps ==> WellFormed(p)
  }

  // Two well-formed formats are compatible exactly when they spell the same
  // specifiers, few enough to be checked.
  lemma CompatibleIsSameSpecs(a: seq<Piece>, b: seq<Piece>)
    requires AllWellFormed(a) && AllWellFormed(b)
    ensures Compatible(RenderAll(a), RenderAll(b)) <==> Specs(a) == Specs(b) && |Encode(Specs(a))| < OUT_MAX
  {
    hide WellFormed, Specs, Encode, Render, RenderAll;
    ScanIsEncoding(a, "");
    ScanIsEncoding(b, "");
    assert RenderAll(a) + "" == RenderAll(a) && RenderAll(b) + "" == RenderAll(b);
    SpecsProper(a);
    SpecsProper(b);
    assert Encode(Specs(a)) + "" == Encode(Specs(a)) && Encode(Specs(b)) + "" == Encode(Specs(b));
    if Encode(Specs(a)) == Encode(Specs(b)) {
      EncodeInjective(Specs(a), Specs(b));
    }
  }

  // A specifier spelled another way in b.
  predicate Respelled(a: seq<Piece>, b: seq<Piece>, i: nat)
  {
    i < |Specs(a)| && i < |Specs(b)| && Specs(a)[i] != Specs(b)[i]
  }

  // Compatible formats take the same arguments. The converse holds exactly when
  // none of them is taken by a specifier spelled another way and they can be checked.
  lemma CompatibleTakesSameArguments(a: seq<Piece>, b: seq<Piece>)
    requires AllWellFormed(a) && AllWellFormed(b)
    ensures Compatible(RenderAll(a), RenderAll(b)) ==> Arguments(a) == Arguments(b)
    ensures Arguments(a) == Arguments(b) ==>
      (Compatible(RenderAll(a), RenderAll(b)) <==>
       |Encode(Specs(a))| < OUT_MAX && forall i :: !Respelled(a, b, i))
  {
    CompatibleIsSameSpecs(a, b);
    hide Specs, Encode, RenderAll, Compatible, AllWellFormed, TypeOf;
    assert |Arguments(a)| == |Specs(a)| && |Arguments(b)| == |Specs(b)|;
    if |Specs(a)| == |Specs(b)| && Specs(a) != Specs(b) {
      var i: nat :| i < |Specs(a)| && Specs(a)[i] != Specs(b)[i];
      assert Respelled(a, b, i);
    }
  }

  function Simple(width: Option<Number>, ty: char): Piece { Convert("", width, None, Plain, ty) }

  lemma OnePiece(p: Piece)
    ensures RenderAll([p]) == Render(p) && Specs([p]) == SpecsOf(p)
  {
    assert [p][1..] == [];
  }

  lemma TwoPieces(p: Piece, q: Piece)
    ensures RenderAll([p, q]) == Render(p) + Render(q) && Specs([p, q]) == SpecsOf(p) + SpecsOf(q)
  {
    OnePiece(q);
    assert [p, q][1..] == [q];
  }

  lemma SimplePiece(width: Option<Number>, ty: char)
    requires IsType(ty) && WidthOk(width)
    ensures var p := Simple(width, ty);
      AllWellFormed([p]) && Render(p) == "%" + OptText(width) + [ty]
      && SpecsOf(p) == StarSpec(width) + [Value(Plain, ty)]
  {
    hide IsType, WidthOk, NumberText, StarSpec;
    assert StarSpec(None) == [] by { StarOfNone(); }
    assert StarSpec(width) + [] + [Value(Plain, ty)] == StarSpec(width) + [Value(Plain, ty)];
  }

  lemma StarOfNone()
    ensures StarSpec(None) == []
  {
  }

  // `%d` and `%i` take the same int and are not compatible.
  lemma SpellingRefused()
    ensures var a, b := [Simple(None, 'd')], [Simple(None, 'i')];
      && AllWellFormed(a) && AllWellFormed(b) && RenderAll(a) == "%d" && RenderAll(b) == "%i"
      && Arguments(a) == Arguments(b) && !Compatible("%d", "%i")
  {
    hide RenderAll, Render, Specs, SpecsOf, Encode, Compatible, WellFormed;
    var a, b := Simple(None, 'd'), Simple(None, 'i');
    SimplePiece(None, 'd');
    SimplePiece(None, 'i');
    OnePiece(a);
    OnePiece(b);
    CompatibleIsSameSpecs([a], [b]);
    assert Specs([a])[0] != Specs([b])[0];
  }

  // Nor are `%*d` and `%d%d`, which both take two.
  lemma WidthRefused()
    ensures var a, b := [Simple(Some(FromArgument), 'd')], [Simple(None, 'd'), Simple(None, 'd')];
      && AllWellFormed(a) && AllWellFormed(b) && RenderAll(a) == "%*d" && RenderAll(b) == "%d%d"
      && Arguments(a) == Arguments(b) && !Compatible("%*d", "%d%d")
  {
    hide RenderAll, Render, Specs, SpecsOf, Encode, Compatible, WellFormed;
    var w, d := Simple(Some(FromArgument), 'd'), Simple(None, 'd');
    SimplePiece(None, 'd');
    SimplePiece(w.width, 'd');
    OnePiece(w);
    TwoPieces(d, d);
    assert WellFormed(d) by { assert d in [d]; }
    CompatibleIsSameSpecs([w], [d, d]);
    assert Specs([w])[0] != Specs([d, d])[0];
  }

  // Well-formedness is not checked: a format may be given a lone percent sign at
  // its end and passes for compatible if and only if it can be checked at all.
  lemma LonePercentIsUnseen(ps: seq<Piece>)
    requires AllWellFormed(ps)
    ensures Compatible(RenderAll(ps), RenderAll(ps) + "%") <==> |Encode(Specs(ps))| < OUT_MAX
  {
    hide WellFormed, Specs, Encode, Render, RenderAll;
    ScanIsEncoding(ps, "");
    ScanIsEncoding(ps, "%");
    assert RenderAll(ps) + "" == RenderAll(ps);
    assert Encode(Specs(ps)) + "" == Encode(Specs(ps));
  }
}

module TextOverrides {
  import opened CStrings
  import opened Formats

  // The byte at position p of a C string.
  function At(s: string, p: nat): char
  {
    if p < |s| then s[p] else '\0'
  }

  // out[n++] = c, keeping room for the terminator.
  method Push(out: array<char>, n: nat, c: char) returns (ok: bool, m: nat)
    requires n < out.Length
    modifies out
    ensures ok == (n + 1 < out.Length) && m < out.Length
    ensures out[..m] == old(out[..n]) + if ok then [c] else ""
  {
    ok, m := n + 1 < out.Length, n;
    if ok {
      out[n] := c;
      m := n + 1;
    }
  }

  method SkipFlags(fmt: string, p: nat) returns (q: nat)
    requires '\0' !in fmt && p <= |fmt|
    ensures p <= q <= |fmt| && fmt[q..] == Formats.SkipFlags(fmt[p..])
  {
    q := p;
    while At(fmt, q) != '\0' && IsFlag(At(fmt, q))
      invariant p <= q <= |fmt| && Formats.SkipFlags(fmt[q..]) == Formats.SkipFlags(fmt[p..])
      decreases |fmt| - q
    {
      assert fmt[q..][1..] == fmt[q + 1..];
      q := q + 1;
    }
  }

  // A width or a precision: `*`, which takes an argument, or digits.
  method ScanNumber(fmt: string, p: nat, out: array<char>, n: nat) returns (ok: bool, q: nat, m: nat)
    requires '\0' !in fmt && p <= |fmt| && n < out.Length
    modifies out
    ensures if ok then m < out.Length && out[..m] == old(out[..n]) + Star(fmt[p..])
                       && p <= q <= |fmt| && fmt[q..] == AfterNumber(fmt[p..])
            else n + |Star(fmt[p..])| >= out.Length
  {
    ok, q, m := true, p, n;
    if At(fmt, p) == '*' {
      ok, m := Push(out, n, '*');
      q := p + 1;
      return;
    }
    while At(fmt, q) != '\0' && '0' <= At(fmt, q) <= '9'
      invariant p <= q <= |fmt| && SkipDigits(fmt[q..]) == SkipDigits(fmt[p..])
      decreases |fmt| - q
    {
      assert fmt[q..][1..] == fmt[q + 1..];
      q := q + 1;
    }
  }

  method ScanLength(fmt: string, p: nat) returns (li: nat)
    requires '\0' !in fmt && p <= |fmt|
    ensures li == LengthOf(fmt[p..]) && p + li <= |fmt|
  {
    li := 0;
    while At(fmt, p + li) != '\0' && IsLength(At(fmt, p + li)) && li < 2
      invariant li <= 2 && p + li <= |fmt|
      invariant (li >= 1 ==> IsLength(fmt[p])) && (li == 2 ==> IsLength(fmt[p + 1]))
      decreases 2 - li
    {
      li := li + 1;
    }
  }

  method PushAll(out: array<char>, n: nat, s: string) returns (ok: bool, m: nat)
    requires n < out.Length
    modifies out
    ensures if ok then m < out.Length && out[..m] == old(out[..n]) + s else n + |s| >= out.Length
  {
    ok, m := true, n;
    for i := 0 to |s|
      invariant m == n + i < out.Length && out[..m] == old(out[..n]) + s[..i]
    {
      ok, m := Push(out, m, s[i]);
      if !ok {
        return;
      }
      assert s[..i + 1] == s[..i] + [s[i]];
    }
    assert s[..|s|] == s;
  }

  method ScanNumbers(fmt: string, p: nat, out: array<char>, n: nat) returns (ok: bool, q: nat, m: nat)
    requires '\0' !in fmt && p <= |fmt| && n < out.Length
    modifies out
    ensures var (text, rest) := Numbers(fmt[p..]);
      if ok then m < out.Length && out[..m] == old(out[..n]) + text
                 && p <= q <= |fmt| && fmt[q..] == rest
      else n + |text| >= out.Length
  {
    hide Star, AfterNumber;
    ok, q, m := ScanNumber(fmt, p, out, n);
    if ok && At(fmt, q) == '.' {
      assert fmt[q..][1..] == fmt[q + 1..];
      ghost var was := out[..m];
      ok, q, m := ScanNumber(fmt, q + 1, out, m);
    }
  }

  // Width, precision, length modifier and type of one conversion.
  method ScanConversion(fmt: string, p: nat, out: array<char>, n: nat) returns (ok: bool, q: nat, m: nat)
    requires '\0' !in fmt && p <= |fmt| && n < out.Length
    modifies out
    ensures var (text, rest) := Conversion(fmt[p..]);
      if ok then m < out.Length && out[..m] == old(out[..n]) + text
                 && p <= q <= |fmt| && fmt[q..] == rest
      else n + |text| >= out.Length
  {
    hide Numbers, LengthOf;
    ok, q, m := ScanNumbers(fmt, p, out, n);
    if !ok {
      return;
    }
    var li := ScanLength(fmt, q);
    if At(fmt, q + li) == '\0' {
      q := |fmt|;
      return;
    }
    assert fmt[q..q + li + 1] == fmt[q..][..li + 1] && fmt[q..][li + 1..] == fmt[q + li + 1..];
    ok, m := PushAll(out, m, fmt[q..q + li + 1]);
    q := q + li + 1;
  }

  // claw_text_specifiers
  method Specifiers(fmt: string, out: array<char>) returns (ok: bool)
    requires '\0' !in fmt
    modifies out
    ensures ok == (|Formats.Specifiers(fmt)| < out.Length)
    ensures ok ==> Upto0(out[..]) == Upto0(Formats.Specifiers(fmt))
  {
    if out.Length == 0 {
      return false;
    }
    var p, n: nat := 0, 0;
    assert fmt[0..] == fmt;
    while At(fmt, p) != '\0'
      invariant p <= |fmt| && n < out.Length
      invariant out[..n] + Formats.Specifiers(fmt[p..]) == Formats.Specifiers(fmt)
      decreases |fmt| - p
    {
      ghost var s := fmt[p..];
      if At(fmt, p) != '%' {
        assert s[1..] == fmt[p + 1..];
        p := p + 1;
      } else if At(fmt, p + 1) == '\0' {
        p := |fmt|;
      } else if At(fmt, p + 1) == '%' {
        assert s[2..] == fmt[p + 2..];
        p := p + 2;
      } else {
        assert s[1..] == fmt[p + 1..];
        p := SkipFlags(fmt, p + 1);
        ghost var was := out[..n];
        ok, p, n := ScanConversion(fmt, p, out, n);
        if !ok {
          return;
        }
      }
    }
    out[n] := '\0';
    assert out[..n] == Formats.Specifiers(fmt);
    assert out[..][..n] == out[..n];
    Upto0Reads(out[..], Formats.Specifiers(fmt));
    ok := true;
  }

  // claw_text_compatible
  method AreCompatible(fallback: string, candidate: string) returns (same: bool)
    requires '\0' !in fallback && '\0' !in candidate
    ensures same == Compatible(fallback, candidate)
  {
    var a, b := new char[OUT_MAX], new char[OUT_MAX];
    var ok := Specifiers(fallback, a);
    if !ok {
      return false;
    }
    ghost var first := a[..];
    ok := Specifiers(candidate, b);
    if !ok {
      return false;
    }
    SpecifiersClean(fallback);
    SpecifiersClean(candidate);
    Upto0Whole(Formats.Specifiers(fallback));
    Upto0Whole(Formats.Specifiers(candidate));
    var x := ReadString(a);
    var y := ReadString(b);
    same := x == y;
  }

  method ReadString(a: array<char>) returns (s: string)
    ensures s == Upto0(a[..])
  {
    s := Upto0(a[..]);
  }

  lemma {:induction false} SpecifiersClean(s: string)
    requires '\0' !in s
    ensures '\0' !in Formats.Specifiers(s)
    decreases |s|
  {
    if s != "" && |s| > 1 && s[0] == '%' && s[1] != '%' {
      var t := Formats.SkipFlags(s[1..]);
      SkipFlagsSuffix(s[1..]);
      ConversionClean(t);
      SpecifiersClean(Conversion(t).1);
    } else if s != "" && s[0] != '%' {
      SpecifiersClean(s[1..]);
    } else if |s| > 1 {
      SpecifiersClean(s[2..]);
    }
  }

  lemma {:induction false} SkipFlagsSuffix(s: string)
    ensures '\0' !in s ==> '\0' !in Formats.SkipFlags(s)
  {
    if s != "" && IsFlag(s[0]) { SkipFlagsSuffix(s[1..]); }
  }

  lemma {:induction false} SkipDigitsSuffix(s: string)
    ensures '\0' !in s ==> '\0' !in SkipDigits(s)
  {
    if s != "" && IsDigit(s[0]) { SkipDigitsSuffix(s[1..]); }
  }

  lemma ConversionClean(s: string)
    requires '\0' !in s
    ensures '\0' !in Conversion(s).0 && '\0' !in Conversion(s).1
  {
    SkipDigitsSuffix(s);
    var a := AfterNumber(s);
    if a != "" && a[0] == '.' {
      SkipDigitsSuffix(a[1..]);
    }
    hide SkipDigits;
  }

  // The text a call site gets.
  function Chosen(overrides: map<string, string>, id: string, fallback: string): string
  {
    if id in overrides && overrides[id] != "" && Compatible(fallback, overrides[id]) then overrides[id] else fallback
  }

  // claw_text: the override table, and how often one was refused.
  class Table {
    const overrides: map<string, string>
    var refused: nat

    constructor (overrides: map<string, string>)
      ensures this.overrides == overrides && refused == 0
    {
      this.overrides := overrides;
      refused := 0;
    }

    method Text(id: string, fallback: string) returns (text: string)
      requires '\0' !in fallback && forall k :: k in overrides ==> '\0' !in overrides[k]
      modifies `refused
      ensures text == Chosen(overrides, id, fallback)
      ensures refused == old(refused) + if id in overrides && overrides[id] != ""
                                           && !Compatible(fallback, overrides[id]) then 1 else 0
    {
      if id !in overrides || overrides[id] == "" {
        return fallback;
      }
      var over := overrides[id];
      var same := AreCompatible(fallback, over);
      if !same {
        refused := refused + 1;
        return fallback;
      }
      text := over;
    }
  }

  // A well-formed override that differs from the call site's own text is used if
  // and only if it is not empty and spells the same specifiers, few enough to be
  // compared.
  lemma OverrideIsUsed(overrides: map<string, string>, id: string, fallback: seq<Piece>, over: seq<Piece>)
    requires AllWellFormed(fallback) && AllWellFormed(over)
    requires id in overrides && overrides[id] == RenderAll(over) != RenderAll(fallback)
    ensures Chosen(overrides, id, RenderAll(fallback)) == RenderAll(over)
        <==> RenderAll(over) != "" && Specs(over) == Specs(fallback) && |Encode(Specs(fallback))| < OUT_MAX
  {
    CompatibleIsSameSpecs(fallback, over);
    hide RenderAll, Specs, Encode, Compatible;
  }

  // Without one the call site keeps its own text.
  lemma NoOverride(overrides: map<string, string>, id: string, fallback: string)
    requires id !in overrides || overrides[id] == ""
    ensures Chosen(overrides, id, fallback) == fallback
  {
  }

  ghost predicate IsFormat(s: string)
  {
    exists ps :: AllWellFormed(ps) && RenderAll(ps) == s
  }

  // Whatever a table of well-formed texts holds, a call site with a well-formed
  // format gets one that takes exactly the arguments it passes.
  lemma OverrideIsSound(overrides: map<string, string>, id: string, fallback: seq<Piece>)
    requires AllWellFormed(fallback) && forall k :: k in overrides ==> IsFormat(overrides[k])
    ensures exists ps ::
      AllWellFormed(ps) && Arguments(ps) == Arguments(fallback)
      && RenderAll(ps) == Chosen(overrides, id, RenderAll(fallback))
  {
    hide AllWellFormed, RenderAll, Arguments, Compatible;
    var text := Chosen(overrides, id, RenderAll(fallback));
    if text != RenderAll(fallback) {
      var ps :| AllWellFormed(ps) && RenderAll(ps) == overrides[id];
      CompatibleTakesSameArguments(fallback, ps);
    }
  }
}
