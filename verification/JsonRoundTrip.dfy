/** Whatever the JSON writer prints is read back as the tree the value denotes. */
module JsonRoundTrip {
  import opened Text
  import opened Numerals
  import opened RValues
  import opened JsonGrammar

  // Strings.

  lemma PlainReads(c: char, rest: string)
    requires c >= ' ' && c != '"' && c != '\\'
    ensures ReadString([c] + rest) == Prefixed([c], ReadString(rest))
  {
    assert ([c] + rest)[1..] == rest;
  }

  lemma SimpleReads(e: char, c: char, rest: string)
    requires e != 'u' && SimpleEscape(e) == Some(c)
    ensures ReadString(['\\', e] + rest) == Prefixed([c], ReadString(rest))
  {
    assert (['\\', e] + rest)[2..] == rest;
  }

  lemma ControlCode(c: char, rest: string)
    requires c < ' '
    ensures var h := "00" + [HexChar(c as int / 16), HexChar(c as int % 16)] + rest;
            UnicodeEscape(h) == Some(([c], rest))
  {
    var h := "00" + [HexChar(c as int / 16), HexChar(c as int % 16)] + rest;
    assert HexCode(h) == c as int;
    assert h[4..] == rest;
  }

  lemma ControlReads(c: char, rest: string)
    requires c < ' '
    ensures var e := "\\u00" + [HexChar(c as int / 16), HexChar(c as int % 16)];
            ReadString(e + rest) == Prefixed([c], ReadString(rest))
  {
    ControlCode(c, rest);
    var t := "\\u00" + [HexChar(c as int / 16), HexChar(c as int % 16)] + rest;
    assert t[0] == '\\' && t[1] == 'u';
    assert t[2..] == "00" + [HexChar(c as int / 16), HexChar(c as int % 16)] + rest;
    hide UnicodeEscape, HexChar;
  }

  lemma EscapeReads(c: char, rest: string)
    ensures ReadString(Escape(c) + rest) == Prefixed([c], ReadString(rest))
  {
    hide ReadString, Prefixed;
    if c == '"' || c == '\\' {
      SimpleReads(c, c, rest);
      assert Escape(c) == ['\\', c];
    } else if c >= ' ' {
      PlainReads(c, rest);
    } else if |Escape(c)| == 2 {
      SimpleReads(Escape(c)[1], c, rest);
      assert Escape(c) == ['\\', Escape(c)[1]];
    } else {
      ControlReads(c, rest);
    }
  }

  lemma {:induction false} StringReads(s: string, rest: string)
    ensures ReadString(EscapeTo(s, ['"'] + rest)) == Some((s, rest))
  {
    if s == "" {
      assert (['"'] + rest)[1..] == rest;
    } else {
      StringReads(s[1..], rest);
      EscapeReads(s[0], EscapeTo(s[1..], ['"'] + rest));
      assert [s[0]] + s[1..] == s;
      hide ReadString, Escape;
    }
  }

  lemma QuoteReads(s: string, rest: string)
    ensures ReadValue(QuoteTo(s, rest)) == Some((JString(s), rest))
  {
    StringReads(s, rest);
    assert QuoteTo(s, rest)[1..] == EscapeTo(s, ['"'] + rest);
    hide ReadString, EscapeTo, ReadItems, ReadMembers, NumberEnd;
  }

  // Numbers.

  lemma {:induction false} DigitsStop(s: string, rest: string, i: nat)
    requires i <= |s| && Delimited(rest)
    ensures DigitsAt(s + rest, i) == DigitsAt(s, i)
    decreases |s| - i
  {
    if i < |s| && IsDigit(s[i]) {
      DigitsStop(s, rest, i + 1);
    }
  }

  lemma ExponentStops(s: string, rest: string, i: nat)
    requires i <= |s| && Delimited(rest) && ExponentAt(s, i) == Some(|s|)
    ensures ExponentAt(s + rest, i) == Some(|s|)
  {
    if i + 1 <= |s| {
      DigitsStop(s, rest, i + 1);
      if i + 2 <= |s| {
        DigitsStop(s, rest, i + 2);
      }
    }
    hide DigitsAt;
  }

  lemma FractionStops(s: string, rest: string, i: nat)
    requires i <= |s| && Delimited(rest)
    ensures FractionAt(s + rest, i) == FractionAt(s, i)
  {
    if i + 1 <= |s| {
      DigitsStop(s, rest, i + 1);
    }
    hide DigitsAt;
  }

  lemma NumberStops(s: string, rest: string)
    requires IsNumeral(s) && Delimited(rest)
    ensures NumberEnd(s + rest) == Some(|s|)
  {
    var a := if s[0] == '-' then 1 else 0;
    assert (s + rest)[0] == s[0];
    DigitsStop(s, rest, a);
    var b := IntegerAt(s, a);
    assert IntegerAt(s + rest, a) == b;
    FractionStops(s, rest, b.value);
    ExponentStops(s, rest, FractionAt(s, b.value).value);
    hide DigitsAt, FractionAt, ExponentAt, SomeDigitsAt;
  }

  lemma NumeralStarts(s: string)
    requires IsNumeral(s)
    ensures s != "" && (s[0] == '-' || IsDigit(s[0]))
  {}

  lemma NumberReads(s: string, rest: string)
    requires IsNumeral(s) && Delimited(rest)
    ensures ReadValue(s + rest) == Some((JNumber(s), rest))
  {
    NumberStops(s, rest);
    NumeralStarts(s);
    var t := s + rest;
    assert t[0] == s[0] && t[..|s|] == s && t[|s|..] == rest;
    assert SkipWhitespace(t) == t;
    hide NumberEnd, IsNumeral, ReadString, ReadItems, ReadMembers, SkipWhitespace, IsDigit;
    assert t[0] != 'n' && t[0] != 't' && t[0] != 'f';
  }

  lemma {:induction false} DigitsThrough(s: string, i: nat)
    requires i <= |s| && forall k :: i <= k < |s| ==> IsDigit(s[k])
    ensures DigitsAt(s, i) == |s|
    decreases |s| - i
  {
    if i < |s| {
      DigitsThrough(s, i + 1);
    }
  }

  lemma {:induction false} NoLeadingZero(n: nat)
    ensures Decimal(n)[0] == '0' ==> n == 0 && Decimal(n) == "0"
  {
    if n >= 10 {
      NoLeadingZero(n / 10);
    }
  }

  /** `%d` prints a number of the grammar, and the number it prints is the integer. */
  lemma IntegerIsNumeral(i: int)
    ensures IsNumeral(IntegerText(i))
    ensures var s := Decimal(if i < 0 then -i else i);
            IntegerText(i) == (if i < 0 then "-" + s else s) && DecimalValue(s) == if i < 0 then -i else i
  {
    var n := if i < 0 then -i else i;
    var s := IntegerText(i);
    NoLeadingZero(n);
    DecimalReads(n);
    var a := if i < 0 then 1 else 0;
    assert s[a] == Decimal(n)[0];
    DigitsThrough(s, a);
    hide Decimal, DecimalValue, DigitsAt;
  }

  // Elements of vectors.

  lemma WordReads(rest: string)
    ensures ReadValue("null" + rest) == Some((JNull, rest))
    ensures ReadValue("true" + rest) == Some((JBool(true), rest))
    ensures ReadValue("false" + rest) == Some((JBool(false), rest))
  {
    assert ("null" + rest)[4..] == rest && ("true" + rest)[4..] == rest && ("false" + rest)[5..] == rest;
    assert ("null" + rest)[0] == 'n' && ("true" + rest)[0] == 't' && ("false" + rest)[0] == 'f';
    hide ReadString, ReadItems, ReadMembers, NumberEnd;
  }

  lemma DoubleReads(d: Double, rest: string)
    requires Delimited(rest)
    ensures ReadValue(ElementTo(Dbl(d), rest)) == Some((ElementJson(Dbl(d)), rest))
  {
    hide ReadValue, QuoteTo;
    match d
    case NaReal => QuoteReads("NA", rest);
    case NaN => QuoteReads("NaN", rest);
    case PosInf => QuoteReads("Inf", rest);
    case NegInf => QuoteReads("-Inf", rest);
    case Finite(text) => NumberReads(text, rest);
  }

  lemma ElementReads(e: Element, rest: string)
    requires Delimited(rest)
    ensures ReadValue(ElementTo(e, rest)) == Some((ElementJson(e), rest))
  {
    hide ReadValue, QuoteTo, IntegerText;
    match e
    case Lgl(_) => WordReads(rest);
    case Int(i) =>
      if i == NA_INTEGER {
        QuoteReads("NA", rest);
      } else {
        IntegerIsNumeral(i);
        NumberReads(IntegerText(i), rest);
      }
    case Dbl(d) => DoubleReads(d, rest);
    case Chr(None) => WordReads(rest);
    case Chr(Some(s)) => QuoteReads(s, rest);
  }

  /** The last item of an array, or one with more behind it. */
  lemma ItemReads(s: string, v: Json, t: string)
    requires ReadValue(s) == Some((v, t)) && t != ""
    ensures t[0] == ']' ==> ReadItems(s) == Some(([v], t[1..]))
    ensures t[0] == ',' && ReadItems(t[1..]).Some? ==>
              ReadItems(s) == Some(([v] + ReadItems(t[1..]).value.0, ReadItems(t[1..]).value.1))
  {
    hide ReadValue;
  }

  lemma {:induction false} ElementsRead(es: seq<Element>, i: nat, rest: string)
    requires i < |es|
    ensures ReadItems(ElementTo(es[i], ElementsTo(es, i + 1, [']'] + rest))) == Some((ElementsJson(es[i..]), rest))
    decreases |es| - i
  {
    var t := ElementsTo(es, i + 1, [']'] + rest);
    hide ReadValue, ReadItems, ElementTo, ElementJson;
    assert es[i..] == [es[i]] + es[i + 1..];
    assert (es[i..])[1..] == es[i + 1..];
    ElementReads(es[i], t);
    ItemReads(ElementTo(es[i], t), ElementJson(es[i]), t);
    if i + 1 == |es| {
      assert t[1..] == rest;
      assert ElementsJson(es[i..]) == [ElementJson(es[i])];
    } else {
      assert t[1..] == ElementTo(es[i + 1], ElementsTo(es, i + 2, [']'] + rest));
      ElementsRead(es, i + 1, rest);
    }
  }

  lemma ElementStarts(e: Element, rest: string)
    ensures ElementTo(e, rest) != "" && !IsWhitespace(ElementTo(e, rest)[0]) && ElementTo(e, rest)[0] != ']'
  {
    hide IsNumeral, IntegerText, EscapeTo;
    match e
    case Int(i) =>
      if i != NA_INTEGER {
        IntegerIsNumeral(i);
        NumeralStarts(IntegerText(i));
        assert (IntegerText(i) + rest)[0] == IntegerText(i)[0];
      }
    case Dbl(d) =>
      if d.Finite? {
        NumeralStarts(d.text);
        assert (d.text + rest)[0] == d.text[0];
      }
    case Chr(s) =>
    case Lgl(l) =>
  }

  /** A bracket and what stands behind it. */
  lemma BracketReads(u: string)
    requires u != "" && !IsWhitespace(u[0])
    ensures u[0] == ']' ==> ReadValue(['['] + u) == Some((JArray([]), u[1..]))
    ensures u[0] != ']' && ReadItems(u).Some? ==>
              ReadValue(['['] + u) == Some((JArray(ReadItems(u).value.0), ReadItems(u).value.1))
    ensures u[0] == '}' ==> ReadValue(['{'] + u) == Some((JObject([]), u[1..]))
    ensures u[0] != '}' && ReadMembers(u).Some? ==>
              ReadValue(['{'] + u) == Some((JObject(ReadMembers(u).value.0), ReadMembers(u).value.1))
  {
    assert (['['] + u)[1..] == u && (['{'] + u)[1..] == u;
    assert SkipWhitespace(u) == u;
    hide ReadItems, ReadMembers, ReadString, NumberEnd;
  }

  lemma VectorReads(es: seq<Element>, rest: string)
    ensures ReadValue(['['] + ElementsTo(es, 0, [']'] + rest)) == Some((JArray(ElementsJson(es)), rest))
  {
    var u := ElementsTo(es, 0, [']'] + rest);
    if es == [] {
      assert u == [']'] + rest && u[1..] == rest;
    } else {
      ElementsRead(es, 0, rest);
      assert es[0..] == es;
      assert u == ElementTo(es[0], ElementsTo(es, 1, [']'] + rest));
      ElementStarts(es[0], ElementsTo(es, 1, [']'] + rest));
    }
    hide ReadValue, ReadItems, ReadMembers, ElementTo, ElementsTo;
    BracketReads(u);
  }

  // Lists.

  lemma ValueStarts(x: Value, unbox: bool, depth: nat, rest: string)
    requires Supported(x, depth)
    ensures var t := PrintTo(x, unbox, depth, rest); t != "" && !IsWhitespace(t[0]) && t[0] != ']'
  {
    if x.Atomic? && unbox && |x.elements| == 1 {
      ElementStarts(x.elements[0], rest);
    }
    hide ElementTo, ElementsTo, ItemsTo, Supported;
  }

  /** A member of an object: its name, its value, and what stands behind. */
  lemma MemberReads(k: string, s: string, v: Json, t: string)
    requires ReadValue(s) == Some((v, t)) && t != ""
    ensures var m := QuoteTo(k, [':'] + s);
            && (t[0] == '}' ==> ReadMembers(m) == Some(([(k, v)], t[1..])))
            && (t[0] == ',' && ReadMembers(t[1..]).Some? ==>
                  ReadMembers(m) == Some(([(k, v)] + ReadMembers(t[1..]).value.0, ReadMembers(t[1..]).value.1)))
  {
    var m := QuoteTo(k, [':'] + s);
    StringReads(k, [':'] + s);
    assert m[1..] == EscapeTo(k, ['"'] + ([':'] + s));
    assert ([':'] + s)[1..] == s;
    hide ReadValue, ReadString, EscapeTo;
    assert SkipWhitespace(m) == m;
    assert SkipWhitespace([':'] + s) == [':'] + s;
    assert IsWhitespace(t[0]) || SkipWhitespace(t) == t;
  }

  lemma {:induction false} ItemsRead(x: Value, unbox: bool, depth: nat, i: nat, rest: string)
    requires x.List? && x.names.None? && Supported(x, depth) && i < |x.items|
    ensures ReadItems(ItemTo(x, unbox, depth, i, ItemsTo(x, unbox, depth, i + 1, [']'] + rest))) ==
            Some((DenoteItems(x, unbox, depth, i), rest))
    decreases x, |x.items| - i
  {
    var t := ItemsTo(x, unbox, depth, i + 1, [']'] + rest);
    hide ReadValue, ReadItems, PrintTo, Denote;
    ValueReads(x.items[i], unbox, depth + 1, t);
    ItemReads(PrintTo(x.items[i], unbox, depth + 1, t), Denote(x.items[i], unbox, depth + 1), t);
    if i + 1 == |x.items| {
      assert t[1..] == rest;
      assert DenoteItems(x, unbox, depth, i) == [Denote(x.items[i], unbox, depth + 1)];
    } else {
      assert t[1..] == ItemTo(x, unbox, depth, i + 1, ItemsTo(x, unbox, depth, i + 2, [']'] + rest));
      ItemsRead(x, unbox, depth, i + 1, rest);
    }
  }

  /** What stands behind a member: the end, or a comma and the next one. */
  lemma BehindMember(x: Value, unbox: bool, depth: nat, i: nat, rest: string)
    requires x.List? && Supported(x, depth) && 0 < i <= |x.items| && rest != ""
    ensures var t := ItemsTo(x, unbox, depth, i, rest);
            t == if i == |x.items| then rest else [','] + ItemTo(x, unbox, depth, i, ItemsTo(x, unbox, depth, i + 1, rest))
  {
    hide ItemTo, Supported;
  }

  lemma MemberDenoted(x: Value, unbox: bool, depth: nat, i: nat)
    requires x.List? && x.names.Some? && Supported(x, depth) && i < |x.items|
    ensures DenoteMembers(x, unbox, depth, i) ==
            [(x.names.value[i].value, Denote(x.items[i], unbox, depth + 1))] + DenoteMembers(x, unbox, depth, i + 1)
    ensures DenoteMembers(x, unbox, depth, |x.items|) == []
  {
    hide Denote;
  }

  lemma {:induction false} MembersRead(x: Value, unbox: bool, depth: nat, i: nat, rest: string)
    requires x.List? && x.names.Some? && Supported(x, depth) && i < |x.items|
    ensures ReadMembers(ItemTo(x, unbox, depth, i, ItemsTo(x, unbox, depth, i + 1, ['}'] + rest))) ==
            Some((DenoteMembers(x, unbox, depth, i), rest))
    decreases x, |x.items| - i
  {
    var t := ItemsTo(x, unbox, depth, i + 1, ['}'] + rest);
    var k, v := x.names.value[i].value, Denote(x.items[i], unbox, depth + 1);
    BehindMember(x, unbox, depth, i + 1, ['}'] + rest);
    MemberDenoted(x, unbox, depth, i);
    ValueReads(x.items[i], unbox, depth + 1, t);
    var s := PrintTo(x.items[i], unbox, depth + 1, t);
    assert ItemTo(x, unbox, depth, i, t) == QuoteTo(k, [':'] + s);
    hide ReadValue, ReadMembers, PrintTo, Denote, QuoteTo, ItemTo, ItemsTo, DenoteMembers;
    MemberReads(k, s, v, t);
    if i + 1 == |x.items| {
      assert t[1..] == rest;
      assert [(k, v)] + [] == [(k, v)];
    } else {
      MembersRead(x, unbox, depth, i + 1, rest);
      assert t[1..] == ItemTo(x, unbox, depth, i + 1, ItemsTo(x, unbox, depth, i + 2, ['}'] + rest));
    }
  }

  lemma {:induction false} ArrayReads(x: Value, unbox: bool, depth: nat, rest: string)
    requires x.List? && x.names.None? && Supported(x, depth)
    ensures ReadValue(PrintTo(x, unbox, depth, rest)) == Some((Denote(x, unbox, depth), rest))
    decreases x, |x.items| + 1
  {
    var u := ItemsTo(x, unbox, depth, 0, [']'] + rest);
    if x.items == [] {
      assert u[1..] == rest;
    } else {
      ItemsRead(x, unbox, depth, 0, rest);
      ValueStarts(x.items[0], unbox, depth + 1, ItemsTo(x, unbox, depth, 1, [']'] + rest));
    }
    hide ReadValue, ReadItems, Supported;
    BracketReads(u);
  }

  lemma MembersStart(x: Value, unbox: bool, depth: nat, rest: string)
    requires x.List? && x.names.Some? && Supported(x, depth) && x.items != []
    ensures var t := ItemsTo(x, unbox, depth, 0, rest);
            && t == ItemTo(x, unbox, depth, 0, ItemsTo(x, unbox, depth, 1, rest))
            && t != "" && t[0] == '"'
  {
    hide PrintTo, EscapeTo, Supported;
  }

  lemma BracesRead(u: string, members: seq<(string, Json)>, rest: string)
    requires u != "" && u[0] == '"' && ReadMembers(u) == Some((members, rest))
    ensures ReadValue(['{'] + u) == Some((JObject(members), rest))
  {
    BracketReads(u);
    hide ReadValue, ReadMembers;
  }

  lemma EmptyObjectReads(x: Value, unbox: bool, depth: nat, rest: string)
    requires x.List? && x.names.Some? && Supported(x, depth) && x.items == []
    ensures ReadValue(PrintTo(x, unbox, depth, rest)) == Some((Denote(x, unbox, depth), rest))
  {
    EmptyReads(rest);
    assert PrintTo(x, unbox, depth, rest) == "{}" + rest;
    hide ReadValue;
  }

  lemma ObjectDenoted(x: Value, unbox: bool, depth: nat, rest: string)
    requires x.List? && x.names.Some? && Supported(x, depth)
    ensures PrintTo(x, unbox, depth, rest) == ['{'] + ItemsTo(x, unbox, depth, 0, ['}'] + rest)
    ensures Denote(x, unbox, depth) == JObject(DenoteMembers(x, unbox, depth, 0))
  {}

  lemma {:induction false} ObjectReads(x: Value, unbox: bool, depth: nat, rest: string)
    requires x.List? && x.names.Some? && Supported(x, depth)
    ensures ReadValue(PrintTo(x, unbox, depth, rest)) == Some((Denote(x, unbox, depth), rest))
    decreases x, |x.items| + 1
  {
    hide *;
    if x.items == [] {
      EmptyObjectReads(x, unbox, depth, rest);
    } else {
      ObjectDenoted(x, unbox, depth, rest);
      MembersStart(x, unbox, depth, ['}'] + rest);
      MembersRead(x, unbox, depth, 0, rest);
      BracesRead(ItemsTo(x, unbox, depth, 0, ['}'] + rest), DenoteMembers(x, unbox, depth, 0), rest);
    }
  }

  /** The round trip, in front of any delimiter. */
  lemma {:induction false} ValueReads(x: Value, unbox: bool, depth: nat, rest: string)
    requires Supported(x, depth) && Delimited(rest)
    ensures ReadValue(PrintTo(x, unbox, depth, rest)) == Some((Denote(x, unbox, depth), rest))
    decreases x, if x.List? then |x.items| + 2 else 0
  {
    match x
    case Null => EmptyReads(rest);
    case Atomic(es, _) =>
      if unbox && |es| == 1 {
        ElementReads(es[0], rest);
      } else {
        VectorReads(es, rest);
      }
    case List(_, names, _) =>
      if names.Some? {
        ObjectReads(x, unbox, depth, rest);
      } else {
        ArrayReads(x, unbox, depth, rest);
      }
    hide ReadValue, ElementTo, ElementsTo, ItemsTo, ElementJson, ElementsJson, Supported;
  }

  lemma EmptyReads(rest: string)
    ensures ReadValue("{}" + rest) == Some((JObject([]), rest))
  {
    var t := "{}" + rest;
    assert t[1..][0] == '}' && t[1..][1..] == rest;
    hide ReadMembers;
  }

  /** A whole document: nothing is left over. */
  lemma DocumentReads(x: Value, unbox: bool)
    requires Supported(x, 0)
    ensures ReadValue(PrintTo(x, unbox, 0, "")) == Some((Denote(x, unbox, 0), ""))
  {
    ValueReads(x, unbox, 0, "");
  }
}
