/** The range parser in 64-bit arithmetic, and the file response built from its ranges. */
module RangeParser {
  import opened Text
  import opened Numerals
  import opened RangeModel

  const MAX_TEN: nat := SIZE_MAX / 10
  const MAX_DIGIT: nat := SIZE_MAX % 10

  /** A result of 64-bit arithmetic. */
  function Wrap(x: int): (r: nat)
    ensures r <= SIZE_MAX
    ensures 0 <= x <= SIZE_MAX ==> r == x
  {
    x % (SIZE_MAX + 1)
  }

  predicate WouldOverflow(base: nat, digit: nat) {
    base > MAX_TEN || (base >= MAX_TEN && digit > MAX_DIGIT)
  }

  /** The guard refuses exactly the digits that would not fit. */
  lemma GuardIsExact(base: nat, digit: nat)
    requires digit < 10
    ensures WouldOverflow(base, digit) <==> base * 10 + digit > SIZE_MAX
  {}

  lemma {:induction false} PrefixSmaller(s: string, k: nat)
    requires k <= |s| && forall i :: 0 <= i < |s| ==> IsDigit(s[i])
    ensures DecimalValue(s[..k]) <= DecimalValue(s)
  {
    if k < |s| {
      PrefixSmaller(s[..|s| - 1], k);
      assert s[..|s| - 1][..k] == s[..k];
    } else {
      assert s[..k] == s;
    }
  }

  method SkipBlanksAt(s: string, i: nat) returns (j: nat)
    requires i <= |s|
    ensures i <= j <= |s| && s[j..] == SkipBlanks(s[i..])
  {
    j := i;
    while j < |s| && s[j] == ' '
      invariant i <= j <= |s| && SkipBlanks(s[j..]) == SkipBlanks(s[i..])
    {
      assert s[j..][1..] == s[j + 1..];
      j := j + 1;
    }
  }

  lemma DigitsMore(s: string, k: nat)
    requires k < |s| && forall i :: 0 <= i <= k ==> IsDigit(s[i])
    ensures DecimalValue(s[..k + 1]) == DecimalValue(s[..k]) * 10 + DigitValue(s[k])
  {
    assert s[..k + 1][..k] == s[..k];
  }

  /** The digits from `i` on; no accumulation wraps around. */
  method ReadNumber(s: string, i: nat) returns (fits: bool, value: nat, j: nat)
    requires i <= |s|
    ensures fits <==> Value(s[i..]) <= SIZE_MAX
    ensures fits ==> value == Value(s[i..]) && j == i + DigitRun(s[i..])
  {
    ghost var t := s[i..];
    ghost var n := DigitRun(t);
    value, j := 0, i;
    assert t[..0] == "";
    while j < |s| && IsDigit(s[j])
      invariant i <= j <= i + n && value == DecimalValue(t[..j - i]) && value <= SIZE_MAX
    {
      var digit := DigitValue(s[j]);
      DigitsMore(t, j - i);
      GuardIsExact(value, digit);
      if WouldOverflow(value, digit) {
        PrefixSmaller(t[..n], j - i + 1);
        assert t[..n][..j - i + 1] == t[..j - i + 1];
        return false, 0, j;
      }
      value := Wrap(value * 10 + digit);
      j := j + 1;
    }
    return true, value, j;
  }

  /** One element of the header, from `i` on. */
  method ReadItemAt(s: string, i: nat) returns (item: Item, j: nat)
    requires i <= |s|
    ensures item == ReadItem(s[i..])
    ensures item.Got? ==> j <= |s| && s[j..] == item.rest
  {
    hide SkipBlanks, Value, DigitRun;
    j := SkipBlanksAt(s, i);
    if j < |s| && s[j] == '-' {
      assert s[j..][1..] == s[j + 1..];
      item, j := ReadEndAt(s, j + 1, None);
      return;
    }
    if !(j < |s| && IsDigit(s[j])) {
      return Bad, j;
    }
    var fits, start, k := ReadNumber(s, j);
    if !fits {
      return TooBig, k;
    }
    assert s[k..] == Behind(s[j..]);
    k := SkipBlanksAt(s, k);
    if !(k < |s| && s[k] == '-') {
      return Bad, k;
    }
    assert s[k..][1..] == s[k + 1..];
    k := SkipBlanksAt(s, k + 1);
    if k == |s| || s[k] == ',' || s[k] == NUL {
      return Got(From(start), s[k..]), k;
    }
    item, j := ReadEndAt(s, k, Some(start));
  }

  method ReadEndAt(s: string, i: nat, first: Option<nat>) returns (item: Item, j: nat)
    requires i <= |s|
    ensures item == ReadEnd(s[i..], first)
    ensures item.Got? ==> j <= |s| && s[j..] == item.rest
  {
    hide SkipBlanks, Value;
    if !(i < |s| && IsDigit(s[i])) {
      return Bad, i;
    }
    var fits, end, k := ReadNumber(s, i);
    if !fits {
      return TooBig, k;
    }
    assert s[k..] == Behind(s[i..]);
    k := SkipBlanksAt(s, k);
    if k < |s| && s[k] != ',' && s[k] != NUL {
      return Bad, k;
    }
    return Got(if first.Some? then Between(first.value, end) else Suffix(end), s[k..]), k;
  }

  /** The bounds of a spec, computed in 64 bits: what it denotes, or an empty stretch. */
  method Bounds(spec: Spec, contentLength: nat) returns (start: nat, end: nat)
    requires Representable(spec) && contentLength <= SIZE_MAX
    ensures Denoted(spec, contentLength) == if start < end then Some(FileRange(start, end)) else None
  {
    match spec {
      case From(first) =>
        start, end := first, contentLength;
        return;
      case Between(first, last) =>
        start, end := first, last;
      case Suffix(length) =>
        start := if length < contentLength then contentLength - length else 0;
        // wraps around for an empty file
        end := Wrap(contentLength - 1);
    }
    if end >= contentLength {
      end := contentLength;
    } else {
      end := Wrap(end + 1);
    }
  }

  lemma ItemFits(t: string)
    ensures ReadItem(t).Got? ==> Representable(ReadItem(t).spec)
  {
    hide SkipBlanks, Value, DigitRun, Behind;
  }

  method ParseRangeHeader(rangeStr: string, contentLength: nat) returns (result: Result, ranges: seq<FileRange>)
    requires contentLength <= SIZE_MAX
    ensures (result, ranges) == Parse(rangeStr, contentLength)
  {
    ranges := [];
    if |rangeStr| < 7 || rangeStr[..6] != "bytes=" {
      return InvalidRange, ranges;
    }
    var i, totalSize := 6, 0;
    while true
      invariant i <= |rangeStr| && totalSize == Total(ranges) && 0 <= totalSize <= SIZE_MAX
      invariant Walk(rangeStr[i..], contentLength, ranges) == Walk(rangeStr[6..], contentLength, [])
      decreases |rangeStr| - i
    {
      var item, j := ReadItemAt(rangeStr, i);
      ItemFits(rangeStr[i..]);
      hide ReadItem;
      if item.Bad? {
        return InvalidRange, ranges;
      }
      if item.TooBig? {
        return NotSatisfiable, ranges;
      }
      var start, end := Bounds(item.spec, contentLength);
      hide Denoted, Total;
      if start < end {
        TotalMore(ranges, FileRange(start, end));
        var overflow := totalSize > SIZE_MAX - (end - start);
        if overflow && item.spec.From? {
          return NotSatisfiable, ranges;
        }
        ranges := ranges + [FileRange(start, end)];
        if overflow {
          return NotSatisfiable, ranges;
        }
        totalSize := Wrap(totalSize + (end - start));
        if !item.spec.From? && |ranges| > 100 {
          return InvalidRange, ranges;
        }
      }
      if !(j < |rangeStr| && rangeStr[j] == ',') {
        return Verdict(ranges, totalSize, contentLength), ranges;
      }
      assert rangeStr[j..][1..] == rangeStr[j + 1..];
      i := j + 1;
    }
  }

  // The file response.

  /** Status, body as a stretch of the file, and the Content-Range header. */
  datatype Response = Response(status: nat, start: nat, end: nat, contentRange: Option<string>)

  /** `newFileResponse` for an existing file, with a Content-Range header asked for.  A
      length of 0 means up to the end. */
  function FileResponse(filesize: nat, offset: nat, length: nat): Response {
    if offset > filesize || length > filesize || Wrap(offset + length) > filesize then
      Response(416, 0, 0, Some("bytes */" + Decimal(filesize)))
    else
      var length := if length == 0 then filesize - offset else length;
      Response(if length < filesize then 206 else 200, offset, offset + length,
               if length > 0 then
                 Some("bytes " + Decimal(offset) + "-" + Decimal(Wrap(offset + length - 1)) + "/" + Decimal(filesize))
               else None)
  }

  /** A header the parser accepts never leads to 416: the body is exactly the first range
      denoted, and the Content-Range says so. */
  lemma AcceptedRangeIsServed(rangeStr: string, filesize: nat)
    requires filesize <= SIZE_MAX
    requires Succeeds(Parse(rangeStr, filesize).0)
    ensures var ranges := Parse(rangeStr, filesize).1;
            && ranges != []
            && var r := ranges[0];
               && 0 <= r.start < r.end <= filesize
               && FileResponse(filesize, r.start, r.end - r.start) ==
                  Response(if Size(r) < filesize then 206 else 200, r.start, r.end,
                           Some("bytes " + Decimal(r.start) + "-" + Decimal(r.end - 1) + "/" + Decimal(filesize)))
  {
    ParseDecides(rangeStr, filesize);
    hide Parse, Decimal, Total, Meets, SpecsOf;
  }
}
