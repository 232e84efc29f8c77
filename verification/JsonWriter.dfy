/** The JSON writer: a buffer that every step appends to, and a walk over the value that
    gives up on what it does not support. */
module JsonWriter {
  import opened Text
  import opened Numerals
  import opened RValues
  import opened JsonGrammar
  import opened JsonRoundTrip

  // A text in front of a rest is the text alone, then the rest.

  lemma Regroup(a: string, b: string, c: string)
    ensures a + b + c == a + (b + c)
    ensures a + "" == a
  {}

  lemma {:induction false} EscapeSplits(s: string, rest: string)
    ensures EscapeTo(s, rest) == EscapeTo(s, "") + rest
  {
    if s != "" {
      EscapeSplits(s[1..], rest);
      Regroup(Escape(s[0]), EscapeTo(s[1..], ""), rest);
      hide Escape;
    }
  }

  lemma QuoteSplits(s: string, rest: string)
    ensures QuoteTo(s, rest) == QuoteTo(s, "") + rest
  {
    EscapeSplits(s, ['"'] + rest);
    EscapeSplits(s, ['"'] + "");
    hide EscapeTo;
  }

  lemma ElementSplits(e: Element, rest: string)
    ensures ElementTo(e, rest) == ElementTo(e, "") + rest
  {
    QuoteSplits("NA", rest);
    QuoteSplits("NaN", rest);
    QuoteSplits("Inf", rest);
    QuoteSplits("-Inf", rest);
    if e.Chr? && e.s.Some? {
      QuoteSplits(e.s.value, rest);
    }
    hide QuoteTo, IntegerText;
  }

  lemma {:induction false} ElementsSplit(es: seq<Element>, i: nat, rest: string)
    requires i <= |es|
    ensures ElementsTo(es, i, rest) == ElementsTo(es, i, "") + rest
    decreases |es| - i
  {
    if i < |es| {
      ElementsSplit(es, i + 1, rest);
      var t, t0 := ElementsTo(es, i + 1, rest), ElementsTo(es, i + 1, "");
      ElementSplits(es[i], t);
      ElementSplits(es[i], t0);
      Regroup(ElementTo(es[i], ""), t0, rest);
      Regroup([','], ElementTo(es[i], t0), rest);
      hide ElementTo;
    }
  }

  lemma {:induction false} ItemsSplit(x: Value, unbox: bool, depth: nat, i: nat, rest: string)
    requires x.List? && Supported(x, depth) && i <= |x.items|
    ensures ItemsTo(x, unbox, depth, i, rest) == ItemsTo(x, unbox, depth, i, "") + rest
    decreases x, |x.items| - i, 1
  {
    if i < |x.items| {
      ItemsSplit(x, unbox, depth, i + 1, rest);
      var t, t0 := ItemsTo(x, unbox, depth, i + 1, rest), ItemsTo(x, unbox, depth, i + 1, "");
      ItemSplits(x, unbox, depth, i, t);
      ItemSplits(x, unbox, depth, i, t0);
      Regroup(ItemTo(x, unbox, depth, i, ""), t0, rest);
      Regroup([','], ItemTo(x, unbox, depth, i, t0), rest);
      hide ItemTo, Supported;
    }
  }

  lemma {:induction false} ItemSplits(x: Value, unbox: bool, depth: nat, i: nat, rest: string)
    requires x.List? && Supported(x, depth) && i < |x.items|
    ensures ItemTo(x, unbox, depth, i, rest) == ItemTo(x, unbox, depth, i, "") + rest
    decreases x, |x.items| - i, 0
  {
    PrintSplits(x.items[i], unbox, depth + 1, rest);
    if x.names.Some? {
      var k := x.names.value[i].value;
      var text, text0 := PrintTo(x.items[i], unbox, depth + 1, rest), PrintTo(x.items[i], unbox, depth + 1, "");
      QuoteSplits(k, [':'] + text);
      QuoteSplits(k, [':'] + text0);
      Regroup([':'], text0, rest);
      Regroup(QuoteTo(k, ""), [':'] + text0, rest);
    }
    hide PrintTo, QuoteTo, Supported;
  }

  lemma {:induction false} PrintSplits(x: Value, unbox: bool, depth: nat, rest: string)
    requires Supported(x, depth)
    ensures PrintTo(x, unbox, depth, rest) == PrintTo(x, unbox, depth, "") + rest
    decreases x, if x.List? then |x.items| + 1 else 0
  {
    match x
    case Null =>
    case Atomic(es, _) =>
      if unbox && |es| == 1 {
        ElementSplits(es[0], rest);
      } else {
        BracketSplits(ElementsTo(es, 0, ""), '[', ']', rest);
        ElementsSplit(es, 0, [']'] + rest);
        ElementsSplit(es, 0, [']'] + "");
      }
    case List(items, names, _) =>
      var close := if names.Some? then '}' else ']';
      BracketSplits(ItemsTo(x, unbox, depth, 0, ""), if names.Some? then '{' else '[', close, rest);
      ItemsSplit(x, unbox, depth, 0, [close] + rest);
      ItemsSplit(x, unbox, depth, 0, [close] + "");
    hide ElementTo, ElementsTo, ItemsTo, Supported;
  }

  lemma BracketSplits(a: string, open: char, close: char, rest: string)
    ensures [open] + (a + ([close] + rest)) == [open] + (a + ([close] + "")) + rest
  {}

  /** Appending one piece uses up the front of what is still to come. */
  lemma Appended(buf: string, piece: string, rest: string, all: string)
    requires buf + (piece + rest) == all
    ensures buf + piece + rest == all
  {
    Regroup(buf, piece, rest);
  }

  class Writer {
    var buf: string

    constructor ()
      ensures buf == ""
    {
      buf := "";
    }

    method AppendEscapedString(s: string)
      modifies this
      ensures buf == old(buf) + QuoteTo(s, "")
    {
      ghost var all := old(buf) + QuoteTo(s, "");
      buf := buf + ['"'];
      Regroup(old(buf), ['"'], EscapeTo(s, ['"'] + ""));
      var i := 0;
      while i < |s|
        invariant 0 <= i <= |s|
        invariant buf + EscapeTo(s[i..], ['"'] + "") == all
      {
        Appended(buf, Escape(s[i]), EscapeTo(s[i + 1..], ['"'] + ""), all) by {
          assert s[i..][1..] == s[i + 1..];
          hide Escape;
        }
        AppendEscaped(s[i]);
        i := i + 1;
        hide Escape, EscapeTo;
      }
      assert s[i..] == "";
      buf := buf + ['"'];
    }

    method AppendEscaped(c: char)
      modifies this
      ensures buf == old(buf) + Escape(c)
    {
      match c {
        case '"' => buf := buf + "\\\"";
        case '\\' => buf := buf + "\\\\";
        case '\n' => buf := buf + "\\n";
        case '\r' => buf := buf + "\\r";
        case '\t' => buf := buf + "\\t";
        case _ =>
          if c == 8 as char {
            buf := buf + "\\b";
          } else if c == 12 as char {
            buf := buf + "\\f";
          } else if c < ' ' {
            buf := buf + ("\\u00" + [HexChar(c as int / 16), HexChar(c as int % 16)]);
          } else {
            buf := buf + [c];
          }
      }
    }

    method AppendElement(e: Element)
      modifies this
      ensures buf == old(buf) + ElementTo(e, "")
    {
      hide QuoteTo, IntegerText;
      match e {
        case Lgl(b) =>
          buf := buf + (match b case NaLogical => "null" case False => "false" case True => "true");
        case Int(i) =>
          if i == NA_INTEGER {
            AppendEscapedString("NA");
          } else {
            buf := buf + IntegerText(i);
          }
        case Dbl(d) =>
          match d {
            case NaReal => AppendEscapedString("NA");
            case NaN => AppendEscapedString("NaN");
            case PosInf => AppendEscapedString("Inf");
            case NegInf => AppendEscapedString("-Inf");
            case Finite(text) => buf := buf + text;
          }
        case Chr(s) =>
          if s.Some? {
            AppendEscapedString(s.value);
          } else {
            buf := buf + "null";
          }
      }
      Regroup(old(buf), "", "");
    }

    method WriteAtomic(es: seq<Element>, classed: bool, unbox: bool) returns (ok: bool)
      modifies this
      ensures ok == !classed
      ensures ok ==> buf == old(buf) + PrintTo(Atomic(es, classed), unbox, 0, "")
    {
      if classed {
        return false;
      }
      if unbox && |es| == 1 {
        AppendElement(es[0]);
        return true;
      }
      ghost var all := old(buf) + (['['] + ElementsTo(es, 0, [']'] + ""));
      Appended(buf, ['['], ElementsTo(es, 0, [']'] + ""), all);
      buf := buf + ['['];
      for i := 0 to |es|
        invariant buf + ElementsTo(es, i, [']'] + "") == all
      {
        WriteElement(es, i, all);
      }
      buf := buf + [']'];
      return true;
    }

    method WriteElement(es: seq<Element>, i: nat, ghost all: string)
      requires i < |es| && buf + ElementsTo(es, i, [']'] + "") == all
      modifies this
      ensures buf + ElementsTo(es, i + 1, [']'] + "") == all
    {
      ghost var rest := ElementsTo(es, i + 1, [']'] + "");
      ElementSplits(es[i], rest);
      hide ElementTo;
      if i > 0 {
        Appended(buf, [','], ElementTo(es[i], rest), all);
        buf := buf + [','];
      }
      Appended(buf, ElementTo(es[i], ""), rest, all);
      AppendElement(es[i]);
    }

    /** A named list becomes an object, a list without names an array. */
    method WriteList(x: Value, unbox: bool, depth: nat) returns (ok: bool)
      requires x.List? && depth <= MAX_DEPTH
      modifies this
      ensures ok == Supported(x, depth)
      ensures ok ==> buf == old(buf) + PrintTo(x, unbox, depth, "")
      decreases x, 0
    {
      if x.classed {
        return false;
      }
      var n := |x.items|;
      var isObject := x.names.Some? && |x.names.value| == n;
      if !isObject && x.names.Some? {
        return false;
      }
      var open, close := if isObject then '{' else '[', if isObject then '}' else ']';
      ghost var rest := [close] + "";
      ghost var all := if Supported(x, depth) then old(buf) + PrintTo(x, unbox, depth, "") else "";
      if Supported(x, depth) {
        Appended(buf, [open], ItemsTo(x, unbox, depth, 0, rest), all);
      }
      buf := buf + [open];
      var i := 0;
      while i < n
        invariant 0 <= i <= n
        invariant Supported(x, depth) ==> buf + ItemsTo(x, unbox, depth, i, rest) == all
        invariant forall j :: 0 <= j < i ==> Supported(x.items[j], depth + 1) && (isObject ==> GoodName(x.names.value[j]))
      {
        var good := WriteItem(x, unbox, depth, i, isObject, rest, all);
        if !good {
          return false;
        }
        i := i + 1;
      }
      buf := buf + [close];
      return true;
    }

    method WriteItem(x: Value, unbox: bool, depth: nat, i: nat, isObject: bool, ghost rest: string, ghost all: string)
      returns (ok: bool)
      requires x.List? && i < |x.items|
      requires isObject == x.names.Some? && (isObject ==> |x.names.value| == |x.items|)
      requires Supported(x, depth) ==> buf + ItemsTo(x, unbox, depth, i, rest) == all
      modifies this
      ensures ok <==> Supported(x.items[i], depth + 1) && (isObject ==> GoodName(x.names.value[i]))
      ensures ok && Supported(x, depth) ==> buf + ItemsTo(x, unbox, depth, i + 1, rest) == all
      decreases x, 0, 0
    {
      ghost var sup := Supported(x, depth);
      ghost var tail := if sup then ItemsTo(x, unbox, depth, i + 1, rest) else "";
      ghost var text := if sup then PrintTo(x.items[i], unbox, depth + 1, tail) else "";
      if i > 0 {
        if sup {
          Appended(buf, [','], ItemTo(x, unbox, depth, i, tail), all);
        }
        buf := buf + [','];
      }
      if isObject {
        var key := x.names.value[i];
        if key.None? || key.value == "" {
          return false;
        }
        if sup {
          QuoteSplits(key.value, [':'] + text);
          Appended(buf, QuoteTo(key.value, ""), [':'] + text, all);
          Appended(buf + QuoteTo(key.value, ""), [':'], text, all);
        }
        AppendEscapedString(key.value);
        buf := buf + [':'];
      }
      if sup {
        PrintSplits(x.items[i], unbox, depth + 1, tail);
        Appended(buf, PrintTo(x.items[i], unbox, depth + 1, ""), tail, all);
      }
      ok := WriteValue(x.items[i], unbox, depth + 1);
    }

    /** Written exactly if supported; then the text is the value's. */
    method WriteValue(x: Value, unbox: bool, depth: nat) returns (ok: bool)
      modifies this
      ensures ok == Supported(x, depth)
      ensures ok ==> buf == old(buf) + PrintTo(x, unbox, depth, "")
      decreases x, 1
    {
      if depth > MAX_DEPTH {
        return false;
      }
      match x {
        case Null =>
          if depth > 0 {
            return false;
          }
          buf := buf + ("{}" + "");
          return true;
        case Atomic(es, classed) =>
          ok := WriteAtomic(es, classed, unbox);
        case List(_, _, _) =>
          ok := WriteList(x, unbox, depth);
        case Other =>
          return false;
      }
    }
  }

  /** The entry point.  The text, if there is one, is that of the value, and a reader of
      RFC 8259 takes all of it to be the tree the value denotes; an unsupported value
      yields no text at all. */
  method ToJson(x: Value, unbox: bool) returns (out: Option<string>)
    ensures out.Some? <==> Supported(x, 0)
    ensures out.Some? ==> out.value == PrintTo(x, unbox, 0, "")
    ensures out.Some? ==> ReadValue(out.value) == Some((Denote(x, unbox, 0), ""))
  {
    var w := new Writer();
    var ok := w.WriteValue(x, unbox, 0);
    if !ok {
      return None;
    }
    DocumentReads(x, unbox);
    assert "" + PrintTo(x, unbox, 0, "") == PrintTo(x, unbox, 0, "");
    return Some(w.buf);
  }
}
