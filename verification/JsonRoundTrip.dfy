// Everything the writer prints is read back, exactly and to its end.

module JsonRoundTrip {
  import opened CStrings
  import opened Json

  // ---- strings ----

  lemma HexRoundTrip(d: nat)
    requires d < 16
    ensures HexValue(HexDigit(d)) == Some(d)
  {
  }

  lemma EscapeTrip(c: char, rest: string)
    ensures var e := Escape(c);
      if e == [c] then c != '"' && c != '\\' && c >= ' '
      else e[0] == '\\' && ParseEscape((e + rest)[1..]) == Ok([c], rest)
  {
    var e := Escape(c);
    if e != [c] {
      assert (e + rest)[1..] == e[1..] + rest;
      if |e| == 2 {
        assert e[1..] + rest == [e[1]] + rest;
        assert ([e[1]] + rest)[1..] == rest;
      } else {
        var h, l := c as nat / 16, c as nat % 16;
        var d := "00" + [HexDigit(h), HexDigit(l)];
        assert e[1..] + rest == "u" + (d + rest);
        assert ("u" + (d + rest))[1..] == d + rest;
        HexRoundTrip(h);
        HexRoundTrip(l);
        assert (d + rest)[4..] == rest;
        assert Hex4(d + rest) == Some(c as nat);
      }
    }
  }

  lemma {:induction false} CharsTrip(s: string, rest: string)
    ensures ParseChars(EscapeAll(s) + "\"" + rest) == Ok(s, rest)
  {
    if s == "" {
      assert EscapeAll(s) + "\"" + rest == "\"" + rest;
      assert ("\"" + rest)[1..] == rest;
    } else {
      var tail := EscapeAll(s[1..]) + "\"" + rest;
      var t := EscapeAll(s) + "\"" + rest;
      assert t == Escape(s[0]) + tail;
      CharsTrip(s[1..], rest);
      EscapeTrip(s[0], tail);
      assert [s[0]] + s[1..] == s;
      if Escape(s[0]) == [s[0]] {
        assert t[1..] == tail;
      } else {
        assert t[0] == '\\';
      }
    }
  }

  lemma StringTrip(s: Option<string>, rest: string)
    ensures ParseString(EncString(s) + rest) == Ok(Text(s), rest)
  {
    var t := EncString(s) + rest;
    assert t == "\"" + (EscapeAll(Text(s)) + "\"" + rest);
    assert t[1..] == EscapeAll(Text(s)) + "\"" + rest;
    CharsTrip(Text(s), rest);
  }

  // ---- numbers ----

  lemma {:induction false} DigitsAre(n: nat)
    ensures forall i :: 0 <= i < |Digits(n)| ==> IsDigit(Digits(n)[i])
    ensures n > 0 ==> Digits(n)[0] != '0'
  {
    if n >= 10 {
      DigitsAre(n / 10);
    }
  }

  lemma DigitStep(d: nat, acc: nat, rest: string)
    requires d < 10
    ensures ParseDigits([HexDigit(d)] + rest, acc) == ParseDigits(rest, acc * 10 + d)
  {
    assert ([HexDigit(d)] + rest)[1..] == rest;
  }

  // Reading digits one at a time builds the number they print.
  lemma {:induction false} DigitsTrip(n: nat, rest: string)
    requires n > 0
    ensures IsDigit(Digits(n)[0])
    ensures ParseDigits(Digits(n)[1..] + rest, Digits(n)[0] as nat - '0' as nat) == ParseDigits(rest, n)
  {
    hide ParseDigits;
    DigitsAre(n);
    if n < 10 {
      assert Digits(n)[1..] + rest == rest;
    } else {
      var d := [HexDigit(n % 10)];
      assert Digits(n)[1..] + rest == Digits(n / 10)[1..] + (d + rest);
      DigitsTrip(n / 10, d + rest);
      DigitStep(n % 10, n / 10, rest);
    }
  }

  lemma ZeroTrip(rest: string)
    requires Stops(rest)
    ensures ParseNat(Digits(0) + rest) == Ok(0, rest)
  {
    var s := Digits(0) + rest;
    assert s[0] == '0' && s[1..] == rest;
    hide Stops, ParseDigits;
  }

  lemma NoMoreDigits(rest: string, n: nat)
    requires Stops(rest)
    ensures ParseDigits(rest, n) == (n, rest)
  {
  }

  lemma NatTrip(n: nat, rest: string)
    requires Stops(rest)
    ensures ParseNat(Digits(n) + rest) == Ok(n, rest)
  {
    hide ParseDigits, Digits, HexDigit, Stops;
    var s := Digits(n) + rest;
    if n == 0 {
      ZeroTrip(rest);
    } else {
      DigitsAre(n);
      DigitsTrip(n, rest);
      NoMoreDigits(rest, n);
      assert s[0] == Digits(n)[0] && s[1..] == Digits(n)[1..] + rest;
    }
  }

  lemma NumberTrip(n: JsonInt, rest: string)
    requires Stops(rest)
    ensures ParseNumber(EncNumber(n) + rest) == Ok(Number(n), rest)
  {
    hide ParseNat, Digits, Stops;
    var s := EncNumber(n) + rest;
    if n < 0 {
      NatTrip(-n, rest);
      assert s[1..] == Digits(-n) + rest;
    } else {
      NatTrip(n, rest);
      DigitsAre(n);
    }
  }

  // ---- values ----

  lemma StartOf(i: Item)
    ensures var e := Enc(i); e != "" && !IsWs(e[0]) && e[0] != ']' && e[0] != '}'
    ensures i.Number? ==> var e := Enc(i); e[0] == '-' || IsDigit(e[0])
  {
    match i
    case Number(n) => DigitsAre(if n < 0 then -n else n);
    case _ =>
  }

  lemma NoWs(s: string)
    requires s != "" && !IsWs(s[0])
    ensures SkipWs(s) == s
  {
  }

  lemma {:induction false} ValueTrip(i: Item, rest: string)
    requires Stops(rest)
    ensures ParseValue(Enc(i) + rest) == Ok(Norm(i), rest)
    decreases i
  {
    hide ParseString, ParseNumber, Stops;
    var s := Enc(i) + rest;
    StartOf(i);
    NoWs(s);
    match i
    case Number(n) => NumberTrip(n, rest);
    case Str(t) => StringTrip(t, rest);
    case Array(c) => ArrayTrip(c, rest);
    case Object(c) => ObjectTrip(c, rest);
    case _ => assert s[|Enc(i)|..] == rest;
  }

  lemma {:induction false} ArrayTrip(c: Items, rest: string)
    ensures ParseValue(Enc(Array(c)) + rest) == Ok(Norm(Array(c)), rest)
    decreases c, 1
  {
    var s := Enc(Array(c)) + rest;
    assert s[1..] == EncElements(c) + "]" + rest;
    NoWs(s);
    if c.End? {
      assert s[1..] == "]" + rest;
      NoWs(s[1..]);
    } else {
      StartOf(c.item);
      assert s[1] == Enc(c.item)[0];
      NoWs(s[1..]);
      ElementsTrip(c, rest);
    }
  }

  lemma {:induction false} ElementsTrip(c: Items, rest: string)
    requires c.Next?
    ensures ParseElements(EncElements(c) + "]" + rest) == Ok(NormElements(c), rest)
    decreases c, 0
  {
    var s := EncElements(c) + "]" + rest;
    if c.next.End? {
      assert s == Enc(c.item) + ("]" + rest);
      ValueTrip(c.item, "]" + rest);
      NoWs("]" + rest);
      assert ("]" + rest)[1..] == rest;
    } else {
      var more := EncElements(c.next) + "]" + rest;
      assert s == Enc(c.item) + ("," + more);
      ValueTrip(c.item, "," + more);
      NoWs("," + more);
      assert ("," + more)[1..] == more;
      ElementsTrip(c.next, rest);
    }
  }

  // An object, from what follows its opening brace.
  lemma ParseObject(t: string)
    requires t != "" && (t[0] == '"' || t[0] == '}')
    ensures var p := ParseMembers(t);
      ParseValue("{" + t) == if t[0] == '}' then Ok(Object(End), t[1..])
        else if p.Fail? then Fail else Ok(Object(p.value), p.rest)
  {
    hide ParseMembers, ParseElements, ParseNumber, ParseString;
    var s := "{" + t;
    assert s[1..] == t;
    NoWs(s);
    NoWs(t);
  }

  lemma {:induction false} ObjectTrip(c: Items, rest: string)
    ensures ParseValue(Enc(Object(c)) + rest) == Ok(Norm(Object(c)), rest)
    decreases c, 1
  {
    hide ParseValue, ParseMembers;
    var t := EncMembers(c) + "}" + rest;
    assert Enc(Object(c)) + rest == "{" + t;
    ParseObject(t);
    if c.End? {
      assert t == "}" + rest && t[1..] == rest;
    } else {
      MembersTrip(c, rest);
    }
  }

  // A member, whatever the value is followed by.
  lemma MemberTrip(k: Option<string>, s: string, value: string)
    requires s == EncString(k) + (":" + value)
    ensures SkipWs(s) == s
    ensures ParseString(s) == Ok(Text(k), ":" + value)
    ensures SkipWs(":" + value) == ":" + value && (":" + value)[1..] == value
  {
    hide ParseString, EscapeAll;
    assert s[0] == '"';
    NoWs(s);
    StringTrip(k, ":" + value);
    NoWs(":" + value);
  }

  lemma {:induction false} MembersTrip(c: Items, rest: string)
    requires c.Next?
    ensures ParseMembers(EncMembers(c) + "}" + rest) == Ok(NormMembers(c), rest)
    decreases c, 0
  {
    hide ParseString, ParseValue, SkipWs, EncString, Enc, Norm, Text;
    var s := EncMembers(c) + "}" + rest;
    var more := if c.next.End? then "}" + rest else "," + (EncMembers(c.next) + "}" + rest);
    assert s == EncString(c.key) + (":" + (Enc(c.item) + more));
    MemberTrip(c.key, s, Enc(c.item) + more);
    ValueTrip(c.item, more);
    NoWs(more);
    if c.next.End? {
      assert more[1..] == rest;
    } else {
      assert more[1..] == EncMembers(c.next) + "}" + rest;
      MembersTrip(c.next, rest);
    }
  }

  // The round trip: the text of any tree parses to that tree and to its end.
  lemma RoundTrip(i: Item)
    ensures ParseValue(Enc(i)) == Ok(Norm(i), "")
  {
    ValueTrip(i, "");
    assert Enc(i) + "" == Enc(i);
  }

  // A tree as the program builds it: strings present and NUL-free, keys on the
  // members of objects only.
  predicate Proper(i: Item)
  {
    match i
    case Str(s) => s.Some? && '\0' !in s.value
    case Array(c) => ProperItems(c, false)
    case Object(c) => ProperItems(c, true)
    case Other => false
    case _ => true
  }

  predicate ProperItems(c: Items, keys: bool)
  {
    match c
    case End => true
    case Next(k, i, n) =>
      && (if keys then k.Some? && '\0' !in k.value else k.None?)
      && Proper(i) && ProperItems(n, keys)
  }

  lemma {:induction false} ProperIsNorm(i: Item)
    requires Proper(i)
    ensures Norm(i) == i
    decreases i
  {
    match i
    case Str(s) => Upto0Whole(s.value);
    case Array(c) => ProperItemsNorm(c, false);
    case Object(c) => ProperItemsNorm(c, true);
    case _ =>
  }

  lemma {:induction false} ProperItemsNorm(c: Items, keys: bool)
    requires ProperItems(c, keys)
    ensures (if keys then NormMembers(c) else NormElements(c)) == c
    decreases c
  {
    if c.Next? {
      ProperIsNorm(c.item);
      ProperItemsNorm(c.next, keys);
      if keys {
        Upto0Whole(c.key.value);
      }
    }
  }

  lemma ProperRoundTrip(i: Item)
    requires Proper(i)
    ensures ParseValue(Enc(i)) == Ok(i, "")
  {
    RoundTrip(i);
    ProperIsNorm(i);
  }

  // ---- the output is one line of text ----

  predicate Printable(s: string)
  {
    forall i :: 0 <= i < |s| ==> s[i] >= ' '
  }

  lemma Appended(a: string, b: string)
    requires Printable(a) && Printable(b)
    ensures Printable(a + b)
  {
  }

  lemma {:induction false} PrintableString(s: string)
    ensures Printable(EscapeAll(s)) && Printable("\"" + EscapeAll(s) + "\"")
  {
    if s != "" {
      PrintableString(s[1..]);
      Appended(Escape(s[0]), EscapeAll(s[1..]));
    }
    Appended("\"", EscapeAll(s));
    Appended("\"" + EscapeAll(s), "\"");
  }

  lemma {:induction false} PrintableNat(n: nat)
    ensures Printable(Digits(n))
  {
    if n >= 10 {
      PrintableNat(n / 10);
    }
  }

  // No raw control byte is ever written, a newline in particular.
  lemma {:induction false} PrintableItem(i: Item)
    ensures Printable(Enc(i))
    decreases i
  {
    match i
    case Number(n) => PrintableNat(if n < 0 then -n else n);
    case Str(s) => PrintableString(Text(s));
    case Array(c) =>
      PrintableElements(c);
      Appended("[", EncElements(c));
      Appended("[" + EncElements(c), "]");
    case Object(c) =>
      PrintableMembers(c);
      Appended("{", EncMembers(c));
      Appended("{" + EncMembers(c), "}");
    case _ =>
  }

  lemma {:induction false} PrintableElements(c: Items)
    ensures Printable(EncElements(c)) && Printable("," + EncElements(c))
    decreases c
  {
    if c.Next? {
      PrintableItem(c.item);
      PrintableElements(c.next);
      Appended(Enc(c.item), if c.next.End? then "" else "," + EncElements(c.next));
    }
    Appended(",", EncElements(c));
  }

  lemma {:induction false} PrintableMembers(c: Items)
    ensures Printable(EncMembers(c)) && Printable("," + EncMembers(c))
    decreases c
  {
    if c.Next? {
      PrintableString(Text(c.key));
      PrintableItem(c.item);
      PrintableMembers(c.next);
      Appended(EncString(c.key), ":");
      Appended(EncString(c.key) + ":", Enc(c.item));
      Appended(EncString(c.key) + ":" + Enc(c.item), if c.next.End? then "" else "," + EncMembers(c.next));
    }
    Appended(",", EncMembers(c));
  }

  // ---- what is on the page ----

  // The short escapes of section 7 of RFC 8259, the long one for any other control
  // character, and every other byte as it is.
  lemma EscapesAreStandard(c: char)
    ensures Escape('"') == "\\\"" && Escape('\\') == "\\\\" && Escape('\n') == "\\n" && Escape('\r') == "\\r"
    ensures Escape('\t') == "\\t" && Escape('\U{8}') == "\\b" && Escape('\U{C}') == "\\f"
    ensures Escape('\U{1}') == "\\u0001" && Escape('\U{B}') == "\\u000b" && Escape('\U{1F}') == "\\u001f"
    ensures c >= ' ' && c != '"' && c != '\\' ==> Escape(c) == [c]
  {
  }

  lemma SampleNumber()
    ensures EncNumber(-120) == "-120"
  {
    assert Digits(1) == "1";
    assert Digits(12) == "12";
    assert Digits(120) == "120";
  }

  lemma OneElement(i: Item)
    ensures EncElements(Next(None, i, End)) == Enc(i)
  {
  }

  lemma TwoElements(i: Item, j: Item)
    ensures EncElements(Next(None, i, Next(None, j, End))) == Enc(i) + "," + Enc(j)
  {
    hide Enc;
    OneElement(j);
    assert Enc(i) + ("," + Enc(j)) == Enc(i) + "," + Enc(j);
  }

  // A number and a literal in an array, as they stand in the text.
  lemma SampleArray()
    ensures Enc(Array(Next(None, Number(-120), Next(None, True, End)))) == "[-120,true]"
  {
    SampleNumber();
    TwoElements(Number(-120), True);
    hide EncNumber, EncElements;
    assert Enc(Number(-120)) == "-120" && Enc(True) == "true";
  }
}
