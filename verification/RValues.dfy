/** R values as the JSON writer sees them, the JSON trees they denote (RFC 8259), and the
    text that is written for them. */
module RValues {
  import opened Text
  import opened Numerals

  const NA_INTEGER: int := -0x8000_0000
  const MAX_DEPTH: nat := 64

  datatype Logical = NaLogical | False | True

  /** A double by the text that `%.17g` prints for it, where it is finite. */
  datatype Double = NaReal | NaN | PosInf | NegInf | Finite(text: Numeral)

  /** One element of an atomic vector. */
  datatype Element =
    | Lgl(l: Logical)
    | Int(i: int)
    | Dbl(d: Double)
    | Chr(s: Option<string>)

  /** `classed` values carry a class attribute.  `Other` stands for every type the writer
      does not know. */
  datatype Value =
    | Null
    | Atomic(elements: seq<Element>, classed: bool)
    | List(items: seq<Value>, names: Option<seq<Option<string>>>, classed: bool)
    | Other

  datatype Json =
    | JNull
    | JBool(b: bool)
    | JNumber(text: string)
    | JString(s: string)
    | JArray(items: seq<Json>)
    | JObject(members: seq<(string, Json)>)

  // Numbers (section 6 of RFC 8259).

  function DigitsAt(s: string, i: nat): (j: nat)
    requires i <= |s|
    ensures i <= j <= |s|
    ensures forall k :: i <= k < j ==> IsDigit(s[k])
    ensures j < |s| ==> !IsDigit(s[j])
    decreases |s| - i
  {
    if i < |s| && IsDigit(s[i]) then DigitsAt(s, i + 1) else i
  }

  /** At least one digit. */
  function SomeDigitsAt(s: string, i: nat): (j: Option<nat>)
    requires i <= |s|
    ensures j.Some? ==> i < j.value <= |s|
  {
    var j := DigitsAt(s, i);
    if j == i then None else Some(j)
  }

  /** No leading zeros. */
  function IntegerAt(s: string, i: nat): (j: Option<nat>)
    requires i <= |s|
    ensures j.Some? ==> i < j.value <= |s|
  {
    if i < |s| && s[i] == '0' then Some(i + 1) else SomeDigitsAt(s, i)
  }

  function FractionAt(s: string, i: nat): (j: Option<nat>)
    requires i <= |s|
    ensures j.Some? ==> i <= j.value <= |s|
  {
    if i < |s| && s[i] == '.' then SomeDigitsAt(s, i + 1) else Some(i)
  }

  function ExponentAt(s: string, i: nat): (j: Option<nat>)
    requires i <= |s|
    ensures j.Some? ==> i <= j.value <= |s|
  {
    if i < |s| && (s[i] == 'e' || s[i] == 'E') then
      if i + 1 < |s| && (s[i + 1] == '+' || s[i + 1] == '-') then SomeDigitsAt(s, i + 2) else SomeDigitsAt(s, i + 1)
    else Some(i)
  }

  /** The end of the number a text begins with. */
  function NumberEnd(s: string): (j: Option<nat>)
    ensures j.Some? ==> 0 < j.value <= |s|
  {
    var a := if s != "" && s[0] == '-' then 1 else 0;
    var b := IntegerAt(s, a);
    if b.None? then None
    else
      var c := FractionAt(s, b.value);
      if c.None? then None else ExponentAt(s, c.value)
  }

  predicate IsNumeral(s: string) {
    s != "" && NumberEnd(s) == Some(|s|)
  }

  type Numeral = s: string | IsNumeral(s) witness "0"

  /** What may follow a value. */
  predicate Delimited(rest: string) {
    rest == "" || rest[0] == ',' || rest[0] == ']' || rest[0] == '}'
    || rest[0] == ' ' || rest[0] == '\t' || rest[0] == '\n' || rest[0] == '\r'
  }

  // The meaning of a value.

  function ElementJson(e: Element): Json {
    match e
    case Lgl(NaLogical) => JNull
    case Lgl(b) => JBool(b.True?)
    case Int(i) => if i == NA_INTEGER then JString("NA") else JNumber(IntegerText(i))
    case Dbl(NaReal) => JString("NA")
    case Dbl(NaN) => JString("NaN")
    case Dbl(PosInf) => JString("Inf")
    case Dbl(NegInf) => JString("-Inf")
    case Dbl(Finite(text)) => JNumber(text)
    case Chr(None) => JNull
    case Chr(Some(s)) => JString(s)
  }

  /** `%d`. */
  function IntegerText(i: int): string {
    if i < 0 then "-" + Decimal(-i) else Decimal(i)
  }

  predicate GoodName(n: Option<string>) { n.Some? && n.value != "" }

  /** The shapes the writer takes on: no class, complete names, no NULL inside, nesting of
      at most 64 levels. */
  predicate Supported(x: Value, depth: nat)
    decreases x
  {
    depth <= MAX_DEPTH &&
    match x
    case Null => depth == 0
    case Atomic(_, classed) => !classed
    case List(items, names, classed) =>
      && !classed
      && (names.Some? ==> |names.value| == |items| && forall i :: 0 <= i < |items| ==> GoodName(names.value[i]))
      && forall i :: 0 <= i < |items| ==> Supported(items[i], depth + 1)
    case Other => false
  }

  function ElementsJson(es: seq<Element>): (r: seq<Json>) {
    if es == [] then [] else [ElementJson(es[0])] + ElementsJson(es[1..])
  }

  function Denote(x: Value, unbox: bool, depth: nat): Json
    requires Supported(x, depth)
    decreases x, if x.List? then |x.items| + 1 else 0
  {
    match x
    case Null => JObject([])
    case Atomic(es, _) => if unbox && |es| == 1 then ElementJson(es[0]) else JArray(ElementsJson(es))
    case List(items, names, _) =>
      if names.Some? then JObject(DenoteMembers(x, unbox, depth, 0)) else JArray(DenoteItems(x, unbox, depth, 0))
  }

  function DenoteItems(x: Value, unbox: bool, depth: nat, i: nat): seq<Json>
    requires x.List? && Supported(x, depth) && i <= |x.items|
    decreases x, |x.items| - i
  {
    if i == |x.items| then [] else [Denote(x.items[i], unbox, depth + 1)] + DenoteItems(x, unbox, depth, i + 1)
  }

  function DenoteMembers(x: Value, unbox: bool, depth: nat, i: nat): seq<(string, Json)>
    requires x.List? && x.names.Some? && Supported(x, depth) && i <= |x.items|
    decreases x, |x.items| - i
  {
    if i == |x.items| then []
    else [(x.names.value[i].value, Denote(x.items[i], unbox, depth + 1))] + DenoteMembers(x, unbox, depth, i + 1)
  }

  // The text, in front of whatever follows it.

  function Escape(c: char): string {
    if c == '"' then "\\\""
    else if c == '\\' then "\\\\"
    else if c == 8 as char then "\\b"
    else if c == 12 as char then "\\f"
    else if c == '\n' then "\\n"
    else if c == '\r' then "\\r"
    else if c == '\t' then "\\t"
    else if c < ' ' then "\\u00" + [HexChar(c as int / 16), HexChar(c as int % 16)]
    else [c]
  }

  function EscapeTo(s: string, rest: string): string {
    if s == "" then rest else Escape(s[0]) + EscapeTo(s[1..], rest)
  }

  function QuoteTo(s: string, rest: string): string {
    ['"'] + EscapeTo(s, ['"'] + rest)
  }

  function ElementTo(e: Element, rest: string): string {
    match e
    case Lgl(NaLogical) => "null" + rest
    case Lgl(False) => "false" + rest
    case Lgl(True) => "true" + rest
    case Int(i) => if i == NA_INTEGER then QuoteTo("NA", rest) else IntegerText(i) + rest
    case Dbl(NaReal) => QuoteTo("NA", rest)
    case Dbl(NaN) => QuoteTo("NaN", rest)
    case Dbl(PosInf) => QuoteTo("Inf", rest)
    case Dbl(NegInf) => QuoteTo("-Inf", rest)
    case Dbl(Finite(text)) => text + rest
    case Chr(None) => "null" + rest
    case Chr(Some(s)) => QuoteTo(s, rest)
  }

  function Comma(i: nat, rest: string): string {
    if i > 0 then [','] + rest else rest
  }

  function ElementsTo(es: seq<Element>, i: nat, rest: string): string
    requires i <= |es|
    decreases |es| - i
  {
    if i == |es| then rest else Comma(i, ElementTo(es[i], ElementsTo(es, i + 1, rest)))
  }

  function PrintTo(x: Value, unbox: bool, depth: nat, rest: string): string
    requires Supported(x, depth)
    decreases x, if x.List? then |x.items| + 1 else 0
  {
    match x
    case Null => "{}" + rest
    case Atomic(es, _) =>
      if unbox && |es| == 1 then ElementTo(es[0], rest) else ['['] + ElementsTo(es, 0, [']'] + rest)
    case List(items, names, _) =>
      if names.Some? then ['{'] + ItemsTo(x, unbox, depth, 0, ['}'] + rest)
      else ['['] + ItemsTo(x, unbox, depth, 0, [']'] + rest)
  }

  /** One item with its name, if it has one. */
  function ItemTo(x: Value, unbox: bool, depth: nat, i: nat, rest: string): string
    requires x.List? && Supported(x, depth) && i < |x.items|
    decreases x, |x.items| - i, 0
  {
    var text := PrintTo(x.items[i], unbox, depth + 1, rest);
    if x.names.Some? then QuoteTo(x.names.value[i].value, [':'] + text) else text
  }

  function ItemsTo(x: Value, unbox: bool, depth: nat, i: nat, rest: string): string
    requires x.List? && Supported(x, depth) && i <= |x.items|
    decreases x, |x.items| - i, 1
  {
    if i == |x.items| then rest else Comma(i, ItemTo(x, unbox, depth, i, ItemsTo(x, unbox, depth, i + 1, rest)))
  }
}
