/** Header fields as text: how they are printed, and what a list of them means. */
module HeaderText {
  import opened Text
  import opened Numerals

  /** A field as it is written: its value may have blanks around it. */
  datatype Header = Header(name: string, lead: string, value: string, trail: string)

  predicate OneLine(s: string) { '\n' !in s }

  predicate Blank(s: string) { OneLine(s) && forall i :: 0 <= i < |s| ==> IsSpace(s[i]) }

  predicate Trimmed(s: string) { s != "" ==> !IsSpace(s[0]) && !IsSpace(s[|s| - 1]) }

  predicate WellFormed(h: Header) {
    && OneLine(h.name) && ':' !in h.name
    && Blank(h.lead) && OneLine(h.value) && Trimmed(h.value) && Blank(h.trail)
  }

  function Line(h: Header): string { h.name + ":" + h.lead + h.value + h.trail }

  function Lines(hs: seq<Header>): string {
    if hs == [] then "" else Line(hs[0]) + CRLF + Lines(hs[1..])
  }

  predicate AllWellFormed(hs: seq<Header>) { forall i :: 0 <= i < |hs| ==> WellFormed(hs[i]) }

  // Reading a line back.

  /** A line without a line feed ends where its CRLF begins. */
  lemma LineEnds(line: string, rest: string)
    requires OneLine(line)
    ensures var v := line + CRLF + rest;
            Find(v, CRLF, 0) == Some(|line|) && v[..|line|] == line && v[|line| + 2..] == rest
  {
    var v := line + CRLF + rest;
    assert v[|line|..] == CRLF + rest;
    assert v[|line|..][..2] == CRLF;
    forall j | 0 <= j < |line| ensures !StartsWith(v[j..], CRLF) {
      if j + 1 < |line| {
        assert v[j..][1] == line[j + 1];
      } else {
        assert v[j..][1] == '\r';
      }
    }
    FindIs(v, CRLF, 0, |line|);
  }

  /** The first occurrence of a character that comes right behind a text without it. */
  lemma CharAt(before: string, c: char, rest: string)
    requires c !in before
    ensures var v := before + [c] + rest;
            Find(v, [c], 0) == Some(|before|) && v[..|before|] == before && v[|before| + 1..] == rest
  {
    var v := before + [c] + rest;
    assert v[|before|..][..1] == [c];
    forall j | 0 <= j < |before| ensures !StartsWith(v[j..], [c]) {
      assert v[j..][0] == before[j];
    }
    FindIs(v, [c], 0, |before|);
  }

  lemma StartsWithChar(v: string, j: nat, c: char)
    requires j < |v|
    ensures StartsWith(v[j..], [c]) <==> v[j] == c
  {
    assert v[j..][..1] == [v[j]];
  }

  lemma Parts(front: string, c: char, rest: string)
    ensures var v := front + [c] + rest; v[|front|] == c && v[..|front|] == front && v[|front| + 1..] == rest
  {}

  lemma FrontPart(v: string, before: string, mid: string)
    requires |before| + |mid| <= |v| && v[..|before| + |mid|] == before + mid
    ensures v[|before|..|before| + |mid|] == mid
  {
    assert v[|before|..|before| + |mid|] == v[..|before| + |mid|][|before|..];
  }

  /** The same, searched from an offset. */
  lemma CharFrom(before: string, mid: string, c: char, rest: string)
    requires c !in mid
    ensures var v, k := before + mid + [c] + rest, |before| + |mid|;
            Find(v, [c], |before|) == Some(k) && v[|before|..k] == mid && v[k + 1..] == rest && v[k] == c
  {
    var v, k := before + mid + [c] + rest, |before| + |mid|;
    Parts(before + mid, c, rest);
    FrontPart(v, before, mid);
    CharSought(v, |before|, k, c);
  }

  lemma CharSought(v: string, from: nat, k: nat, c: char)
    requires from <= k < |v| && v[k] == c && c !in v[from..k]
    ensures Find(v, [c], from) == Some(k)
  {
    StartsWithChar(v, k, c);
    forall j | from <= j < k ensures !StartsWith(v[j..], [c]) {
      assert v[j] == v[from..k][j - from];
      StartsWithChar(v, j, c);
    }
    FindIs(v, [c], from, k);
  }

  lemma CharMissing(before: string, mid: string, c: char)
    requires c !in mid
    ensures Find(before + mid, [c], |before|) == None && (before + mid)[|before|..] == mid
  {
    var v := before + mid;
    forall j | |before| <= j <= |v| ensures !StartsWith(v[j..], [c]) {
      if j < |v| {
        assert v[j..][0] == mid[j - |before|];
      }
    }
  }

  lemma {:induction false} SkipsBlank(blank: string, v: string)
    requires (forall i :: 0 <= i < |blank| ==> IsSpace(blank[i])) && (v != "" ==> !IsSpace(v[0]))
    ensures SkipSpaces(blank + v) == v
    decreases |blank|
  {
    if blank == "" {
      assert blank + v == v;
    } else {
      assert (blank + v)[1..] == blank[1..] + v;
      SkipsBlank(blank[1..], v);
    }
  }

  lemma {:induction false} TrimsBlank(v: string, blank: string)
    requires (forall i :: 0 <= i < |blank| ==> IsSpace(blank[i])) && (v != "" ==> !IsSpace(v[|v| - 1]))
    ensures TrimEnd(v + blank) == v
    decreases |blank|
  {
    if blank == "" {
      assert v + blank == v;
    } else {
      var n := |blank| - 1;
      assert (v + blank)[..|v| + n] == v + blank[..n];
      TrimsBlank(v, blank[..n]);
    }
  }

  lemma TrimReads(lead: string, value: string, trail: string)
    requires Blank(lead) && Trimmed(value) && Blank(trail)
    ensures Trim(lead + value + trail) == value
  {
    if value == "" {
      assert lead + value + trail == (lead + trail) + "";
      SkipsBlank(lead + trail, "");
    } else {
      assert lead + value + trail == lead + (value + trail);
      SkipsBlank(lead, value + trail);
      TrimsBlank(value, trail);
    }
  }

  /** A field is split at its colon into its name and its value. */
  lemma LineReads(h: Header)
    requires WellFormed(h)
    ensures OneLine(Line(h))
    ensures Find(Line(h), ":", 0) == Some(|h.name|) && Line(h)[..|h.name|] == h.name
    ensures Trim(Line(h)[|h.name| + 1..]) == h.value
  {
    var value := h.lead + h.value + h.trail;
    assert Line(h) == h.name + [':'] + value;
    CharAt(h.name, ':', value);
    TrimReads(h.lead, h.value, h.trail);
  }

  // What a list of fields means.

  predicate Named(h: Header, key: string) { LowerAll(h.name) == key }

  /** The first field of a name, whatever the case of its letters. */
  function First(hs: seq<Header>, key: string): Option<string> {
    if hs == [] then None
    else if Named(hs[0], key) then Some(hs[0].value)
    else First(hs[1..], key)
  }

  /** The last one. */
  function Last(hs: seq<Header>, key: string): Option<string> {
    if hs == [] then None
    else
      var n := |hs| - 1;
      if Named(hs[n], key) then Some(hs[n].value) else Last(hs[..n], key)
  }

  /** All of them, in order. */
  function Each(hs: seq<Header>, key: string): seq<string> {
    if hs == [] then []
    else (if Named(hs[0], key) then [hs[0].value] else []) + Each(hs[1..], key)
  }

  lemma OneEach(h: Header, key: string)
    ensures Each([h], key) == if Named(h, key) then [h.value] else []
  {
    assert [h][1..] == [];
    hide Named;
  }

  /** Absent, or present without a value. */
  predicate Without(value: Option<string>) { value == None || value == Some("") }

  /** The fields under their lower-case names, the first of a name counting; those of one
      name are left out. */
  function FirstFields(hs: seq<Header>, except: string): (r: map<string, string>)
    ensures forall key :: key in r <==> key != except && First(hs, key).Some?
    ensures forall key :: key in r ==> r[key] == First(hs, key).value
  {
    if hs == [] then map[]
    else
      var rest := FirstFields(hs[1..], except);
      if Named(hs[0], except) then rest else rest[LowerAll(hs[0].name) := hs[0].value]
  }

  /** The same, the last of a name counting. */
  function LastFields(hs: seq<Header>, except: string): (r: map<string, string>)
    ensures forall key :: key in r <==> key != except && Last(hs, key).Some?
    ensures forall key :: key in r ==> r[key] == Last(hs, key).value
  {
    if hs == [] then map[]
    else
      var n := |hs| - 1;
      var rest := LastFields(hs[..n], except);
      if Named(hs[n], except) then rest else rest[LowerAll(hs[n].name) := hs[n].value]
  }

  lemma {:induction false} LastFront(hs: seq<Header>, key: string)
    requires hs != []
    ensures Last(hs, key) == if Last(hs[1..], key).Some? then Last(hs[1..], key)
                             else if Named(hs[0], key) then Some(hs[0].value) else None
    decreases |hs|
  {
    var n := |hs| - 1;
    if n > 0 {
      LastFront(hs[..n], key);
      assert hs[..n][1..] == hs[1..][..n - 1];
      assert hs[1..][n - 1] == hs[n];
    }
  }

  function Or(a: Option<string>, b: string): string { if a.Some? then a.value else b }

  /** No number begins here, or one that does not fit 64 bits. */
  predicate Unreadable(value: string) {
    || (value != "" && !IsDigit(value[0]) && !IsSpace(value[0]) && value[0] != '-' && value[0] != '+')
    || (value != "" && (forall i :: 0 <= i < |value| ==> IsDigit(value[i])) && DecimalValue(value) > SIZE_MAX)
  }

  lemma UnreadableRefused(value: string)
    requires Unreadable(value)
    ensures value != "" && Stoull(value) == None
  {
    if IsDigit(value[0]) {
      assert SkipSpaces(value) == value;
      DigitRunAll(value, "");
      assert value + "" == value && value[..|value|] == value;
    } else {
      assert SkipSpaces(value) == value;
    }
  }
}
