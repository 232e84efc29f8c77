/** Range headers (section 2.1 of RFC 7233): the specs a header spells, the bytes each
    denotes, and what the parser makes of them. */
module RangeModel {
  import opened Text
  import opened Numerals

  datatype FileRange = FileRange(start: nat, end: nat)

  datatype Result = InvalidRange | NotSatisfiable | SinglePart | MultiPart

  /** "first-", "first-last" and "-length". */
  datatype Spec = From(first: nat) | Between(first: nat, last: nat) | Suffix(length: nat)

  /** One element of a header: malformed, a number beyond 64 bits, or a spec with the text
      behind it. */
  datatype Item = Bad | TooBig | Got(spec: Spec, rest: string)

  const NUL: char := 0 as char

  /** The end of the text: the parser works on a C string. */
  predicate AtEnd(t: string) { t == "" || t[0] == NUL }

  predicate AtComma(t: string) { t != "" && t[0] == ',' }

  function SkipBlanks(t: string): (r: string)
    ensures |r| <= |t|
    ensures r != "" ==> r[0] != ' '
  {
    if t != "" && t[0] == ' ' then SkipBlanks(t[1..]) else t
  }

  function Value(t: string): nat { DecimalValue(t[..DigitRun(t)]) }

  function Behind(t: string): string { t[DigitRun(t)..] }

  /** The second number, and what must follow it. */
  function ReadEnd(t: string, first: Option<nat>): (r: Item)
    ensures r.Got? ==> |r.rest| < |t| && (AtEnd(r.rest) || AtComma(r.rest))
  {
    if DigitRun(t) == 0 then Bad
    else if Value(t) > SIZE_MAX then TooBig
    else
      var rest := SkipBlanks(Behind(t));
      if !AtComma(rest) && !AtEnd(rest) then Bad
      else if first.Some? then Got(Between(first.value, Value(t)), rest)
      else Got(Suffix(Value(t)), rest)
  }

  function ReadItem(t: string): (r: Item)
    ensures r.Got? ==> |r.rest| < |t| && (AtEnd(r.rest) || AtComma(r.rest))
  {
    var t := SkipBlanks(t);
    if t != "" && t[0] == '-' then ReadEnd(t[1..], None)
    else if DigitRun(t) == 0 then Bad
    else if Value(t) > SIZE_MAX then TooBig
    else
      var u := SkipBlanks(Behind(t));
      if u == "" || u[0] != '-' then Bad
      else
        var v := SkipBlanks(u[1..]);
        if AtComma(v) || AtEnd(v) then Got(From(Value(t)), v) else ReadEnd(v, Some(Value(t)))
  }

  /** The bytes of a file of `length` bytes that a spec denotes: [start, end), if any. */
  function Denoted(spec: Spec, length: nat): (r: Option<FileRange>)
    ensures r.Some? ==> r.value.start < r.value.end <= length
  {
    match spec
    case From(a) => if a < length then Some(FileRange(a, length)) else None
    case Between(a, b) =>
      var end := if b + 1 < length then b + 1 else length;
      if a < end then Some(FileRange(a, end)) else None
    case Suffix(n) =>
      var start := if n < length then length - n else 0;
      if start < length then Some(FileRange(start, length)) else None
  }

  /** Does a spec ask for byte `k` of a file? */
  predicate AsksFor(spec: Spec, length: nat, k: nat) {
    match spec
    case From(a) => a <= k
    case Between(a, b) => a <= k <= b
    case Suffix(n) => length - n <= k
  }

  /** A spec denotes exactly the bytes of the file it asks for. */
  lemma DenotedBytes(spec: Spec, length: nat, k: nat)
    ensures var d := Denoted(spec, length);
            (d.Some? && d.value.start <= k < d.value.end) <==> k < length && AsksFor(spec, length, k)
  {}

  function Size(r: FileRange): int { r.end - r.start }

  function Total(rs: seq<FileRange>): int {
    if rs == [] then 0 else Total(rs[..|rs| - 1]) + Size(rs[|rs| - 1])
  }

  /** The verdict at the end of the header. */
  function Verdict(ranges: seq<FileRange>, total: int, length: nat): Result {
    if ranges == [] || total > length then NotSatisfiable
    else if |ranges| == 1 then SinglePart else MultiPart
  }

  /** The parser, one element after the other.  A sum beyond 64 bits ends it, and more than
      100 ranges do, if the last is not of the form "first-". */
  function Walk(t: string, length: nat, ranges: seq<FileRange>): (r: (Result, seq<FileRange>))
    ensures Succeeds(r.0) ==> (r.0.SinglePart? <==> |r.1| == 1)
    decreases |t|
  {
    match ReadItem(t)
    case Bad => (InvalidRange, ranges)
    case TooBig => (NotSatisfiable, ranges)
    case Got(spec, rest) =>
      var denoted := Denoted(spec, length);
      var more := if denoted.Some? then ranges + [denoted.value] else ranges;
      if Total(more) > SIZE_MAX then (NotSatisfiable, if spec.From? then ranges else more)
      else if denoted.Some? && !spec.From? && |more| > 100 then (InvalidRange, more)
      else if AtComma(rest) then Walk(rest[1..], length, more)
      else (Verdict(more, Total(more), length), more)
  }

  function Parse(s: string, length: nat): (Result, seq<FileRange>) {
    if |s| < 7 || s[..6] != "bytes=" then (InvalidRange, []) else Walk(s[6..], length, [])
  }

  predicate Succeeds(r: Result) { r.SinglePart? || r.MultiPart? }

  // The specs a header spells.

  function SpecsOf(t: string): Option<seq<Spec>>
    decreases |t|
  {
    match ReadItem(t)
    case Got(spec, rest) =>
      if !AtComma(rest) then Some([spec])
      else
        var more := SpecsOf(rest[1..]);
        if more.Some? then Some([spec] + more.value) else None
    case _ => None
  }

  /** The ranges denoted, in order. */
  function Meets(specs: seq<Spec>, length: nat): (r: seq<FileRange>) {
    if specs == [] then []
    else
      var rest := Meets(specs[1..], length);
      var d := Denoted(specs[0], length);
      if d.Some? then [d.value] + rest else rest
  }

  /** Does a spec other than "first-" bring the ranges above 100, `n` being there already? */
  predicate LimitHit(specs: seq<Spec>, length: nat, n: nat) {
    specs != [] &&
    var d := Denoted(specs[0], length).Some?;
    || (d && !specs[0].From? && n + 1 > 100)
    || LimitHit(specs[1..], length, if d then n + 1 else n)
  }

  predicate Fits(rs: seq<FileRange>, length: nat) {
    forall i :: 0 <= i < |rs| ==> rs[i].start < rs[i].end <= length
  }

  lemma TotalMore(rs: seq<FileRange>, r: FileRange)
    ensures Total(rs + [r]) == Total(rs) + Size(r)
  {
    assert (rs + [r])[..|rs|] == rs;
  }

  lemma {:induction false} TotalGrows(rs: seq<FileRange>, more: seq<FileRange>, length: nat)
    requires Fits(more, length)
    ensures Total(rs) <= Total(rs + more)
    decreases |more|
  {
    if more == [] {
      assert rs + more == rs;
    } else {
      assert rs + more == (rs + [more[0]]) + more[1..];
      TotalGrows(rs + [more[0]], more[1..], length);
      TotalMore(rs, more[0]);
    }
  }

  lemma {:induction false} MeetsFit(specs: seq<Spec>, length: nat)
    ensures Fits(Meets(specs, length), length)
  {
    if specs != [] {
      MeetsFit(specs[1..], length);
    }
  }

  /** What the walk decides, in terms of the specs alone. */
  predicate Deserves(specs: Option<seq<Spec>>, length: nat, ranges: seq<FileRange>) {
    && specs.Some?
    && !LimitHit(specs.value, length, |ranges|)
    && var all := ranges + Meets(specs.value, length);
       all != [] && Total(all) <= length
  }

  lemma MeetsNext(specs: seq<Spec>, length: nat, ranges: seq<FileRange>)
    requires specs != []
    ensures var d := Denoted(specs[0], length);
            var more := if d.Some? then ranges + [d.value] else ranges;
            ranges + Meets(specs, length) == more + Meets(specs[1..], length)
  {}

  function More(spec: Spec, length: nat, ranges: seq<FileRange>): seq<FileRange> {
    var d := Denoted(spec, length);
    if d.Some? then ranges + [d.value] else ranges
  }

  /** The last spec of a header. */
  lemma LastSpec(spec: Spec, length: nat, ranges: seq<FileRange>)
    requires length <= SIZE_MAX
    ensures var more := More(spec, length, ranges);
            && ranges + Meets([spec], length) == more
            && (Deserves(Some([spec]), length, ranges) <==>
                  && !(Total(more) > SIZE_MAX)
                  && !(Denoted(spec, length).Some? && !spec.From? && |more| > 100)
                  && Succeeds(Verdict(more, Total(more), length)))
  {
    assert [spec][1..] == [];
    MeetsNext([spec], length, ranges);
    var more := More(spec, length, ranges);
    assert Meets([], length) == [] && more + [] == more;
    assert LimitHit([spec], length, |ranges|) <==> Denoted(spec, length).Some? && !spec.From? && |more| > 100;
    hide Total, Denoted, Meets, LimitHit;
  }

  /** A spec with more behind it. */
  lemma NextSpec(spec: Spec, others: seq<Spec>, length: nat, ranges: seq<FileRange>)
    requires length <= SIZE_MAX
    ensures var more := More(spec, length, ranges);
            && ranges + Meets([spec] + others, length) == more + Meets(others, length)
            && (Deserves(Some([spec] + others), length, ranges) <==>
                  && !(Total(more) > SIZE_MAX)
                  && !(Denoted(spec, length).Some? && !spec.From? && |more| > 100)
                  && Deserves(Some(others), length, more))
  {
    var specs := [spec] + others;
    var more := More(spec, length, ranges);
    assert specs[1..] == others;
    MeetsNext(specs, length, ranges);
    MeetsFit(others, length);
    TotalGrows(more, Meets(others, length), length);
    hide Total, Denoted, Meets;
  }

  /** The parser succeeds exactly on headers whose specs are well-formed, keep to the limit
      and denote at least one range and at most `length` bytes together; and then its
      ranges are exactly those denoted, in order. */
  lemma {:induction false} WalkDecides(t: string, length: nat, ranges: seq<FileRange>)
    requires length <= SIZE_MAX
    ensures Succeeds(Walk(t, length, ranges).0) <==> Deserves(SpecsOf(t), length, ranges)
    ensures Succeeds(Walk(t, length, ranges).0) ==>
              Walk(t, length, ranges).1 == ranges + Meets(SpecsOf(t).value, length)
    decreases |t|
  {
    var item := ReadItem(t);
    if item.Got? {
      if AtComma(item.rest) {
        WalkDecides(item.rest[1..], length, More(item.spec, length, ranges));
        var others := SpecsOf(item.rest[1..]);
        if others.Some? {
          NextSpec(item.spec, others.value, length, ranges);
        }
      } else {
        LastSpec(item.spec, length, ranges);
      }
    }
    hide ReadItem, Total, Denoted, Meets, LimitHit;
  }

  lemma {:induction false} TotalOfFits(rs: seq<FileRange>, length: nat)
    requires Fits(rs, length)
    ensures Total(rs) >= |rs|
  {
    if rs != [] {
      TotalOfFits(rs[..|rs| - 1], length);
    }
  }

  /** `parseRangeHeader`: what success means, and exactly when there is success. */
  lemma ParseDecides(s: string, length: nat)
    requires length <= SIZE_MAX
    ensures var (result, ranges) := Parse(s, length);
            && (Succeeds(result) <==> |s| >= 7 && s[..6] == "bytes=" && Deserves(SpecsOf(s[6..]), length, []))
            && (Succeeds(result) ==>
                  && ranges == Meets(SpecsOf(s[6..]).value, length)
                  && Fits(ranges, length)
                  && 0 < Total(ranges) <= length
                  && (result.SinglePart? <==> |ranges| == 1))
  {
    if |s| >= 7 && s[..6] == "bytes=" {
      WalkDecides(s[6..], length, []);
      if Succeeds(Walk(s[6..], length, []).0) {
        var all := Meets(SpecsOf(s[6..]).value, length);
        assert [] + all == all;
        MeetsFit(SpecsOf(s[6..]).value, length);
        TotalOfFits(all, length);
      }
    }
    hide Walk, SpecsOf, Meets, Total, LimitHit;
  }

  // Printed headers.

  /** A spec in front of whatever follows. */
  function SpecTo(spec: Spec, rest: string): string {
    match spec
    case From(a) => Decimal(a) + (['-'] + rest)
    case Between(a, b) => Decimal(a) + (['-'] + (Decimal(b) + rest))
    case Suffix(n) => ['-'] + (Decimal(n) + rest)
  }

  function HeaderTo(specs: seq<Spec>): string {
    if specs == [] then ""
    else SpecTo(specs[0], if |specs| == 1 then "" else [','] + HeaderTo(specs[1..]))
  }

  predicate Representable(spec: Spec) {
    match spec
    case From(a) => a <= SIZE_MAX
    case Between(a, b) => a <= SIZE_MAX && b <= SIZE_MAX
    case Suffix(n) => n <= SIZE_MAX
  }

  lemma NumberReads(n: nat, rest: string)
    requires rest == "" || !IsDigit(rest[0])
    ensures var t := Decimal(n) + rest;
            DigitRun(t) > 0 && Value(t) == n && Behind(t) == rest && SkipBlanks(t) == t && t[0] != '-'
  {
    var d := Decimal(n);
    DigitRunAll(d, rest);
    DecimalReads(n);
    var t := d + rest;
    assert t[..|d|] == d && t[|d|..] == rest && t[0] == d[0] && IsDigit(d[0]);
    hide Decimal, DecimalValue, DigitRun;
  }

  lemma EndReads(n: nat, rest: string, first: Option<nat>)
    requires n <= SIZE_MAX && (AtEnd(rest) || AtComma(rest))
    ensures ReadEnd(Decimal(n) + rest, first) == Got(if first.Some? then Between(first.value, n) else Suffix(n), rest)
  {
    NumberReads(n, rest);
    assert SkipBlanks(rest) == rest;
    hide Decimal, DigitRun, Value, Behind, SkipBlanks;
  }

  lemma FromReads(a: nat, rest: string)
    requires a <= SIZE_MAX && (AtEnd(rest) || AtComma(rest))
    ensures ReadItem(SpecTo(From(a), rest)) == Got(From(a), rest)
  {
    var u := ['-'] + rest;
    NumberReads(a, u);
    assert SkipBlanks(u) == u && u[1..] == rest && SkipBlanks(rest) == rest;
    hide Decimal, DigitRun, Value, Behind, SkipBlanks, ReadEnd;
  }

  lemma BetweenReads(a: nat, b: nat, rest: string)
    requires a <= SIZE_MAX && b <= SIZE_MAX && (AtEnd(rest) || AtComma(rest))
    ensures ReadItem(SpecTo(Between(a, b), rest)) == Got(Between(a, b), rest)
  {
    var v := Decimal(b) + rest;
    var u := ['-'] + v;
    NumberReads(b, rest);
    EndReads(b, rest, Some(a));
    assert SkipBlanks(u) == u && u[1..] == v;
    assert IsDigit(v[0]) && !AtComma(v) && !AtEnd(v);
    hide Decimal, DigitRun, Value, Behind, SkipBlanks, ReadEnd;
    NumberReads(a, u);
  }

  lemma SuffixReads(n: nat, rest: string)
    requires n <= SIZE_MAX && (AtEnd(rest) || AtComma(rest))
    ensures ReadItem(SpecTo(Suffix(n), rest)) == Got(Suffix(n), rest)
  {
    var t := SpecTo(Suffix(n), rest);
    EndReads(n, rest, None);
    assert SkipBlanks(t) == t && t[1..] == Decimal(n) + rest;
    hide Decimal, DigitRun, Value, Behind, SkipBlanks, ReadEnd;
  }

  lemma SpecReads(spec: Spec, rest: string)
    requires Representable(spec) && (AtEnd(rest) || AtComma(rest))
    ensures ReadItem(SpecTo(spec, rest)) == Got(spec, rest)
  {
    hide ReadItem, SpecTo;
    match spec
    case From(a) => FromReads(a, rest);
    case Between(a, b) => BetweenReads(a, b, rest);
    case Suffix(n) => SuffixReads(n, rest);
  }

  lemma SpecsNext(t: string, spec: Spec, u: string, more: seq<Spec>)
    requires ReadItem(t) == Got(spec, [','] + u) && SpecsOf(u) == Some(more)
    ensures SpecsOf(t) == Some([spec] + more)
  {
    assert ([','] + u)[1..] == u;
    hide ReadItem;
  }

  /** A printed list of specs is read as that list. */
  lemma {:induction false} HeaderReads(specs: seq<Spec>)
    requires specs != [] && forall i :: 0 <= i < |specs| ==> Representable(specs[i])
    ensures SpecsOf(HeaderTo(specs)) == Some(specs)
  {
    hide ReadItem, SpecTo, Representable;
    var first, others := specs[0], specs[1..];
    if others == [] {
      assert specs == [first];
      SpecReads(first, "");
    } else {
      var u := HeaderTo(others);
      HeaderReads(others);
      hide SpecsOf;
      SpecReads(first, [','] + u);
      SpecsNext(SpecTo(first, [','] + u), first, u, others);
      assert specs == [first] + others;
    }
  }
}
