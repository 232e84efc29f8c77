/** Byte strings and the few searches the parsers share.  A byte is a `char`;
    nothing below depends on the code being under 256. */
module Text {

  const CRLF: string := "\r\n"
  const DASH: string := "--"

  datatype Option<+T> = None | Some(value: T)

  predicate StartsWith(v: string, p: string) {
    |p| <= |v| && v[..|p|] == p
  }

  /** `v.find(p, from)`: the least position at or after `from` where `p` occurs. */
  function Find(v: string, p: string, from: nat): (r: Option<nat>)
    ensures r.Some? ==> from <= r.value && r.value + |p| <= |v| && StartsWith(v[r.value..], p)
    ensures r.Some? ==> forall k :: from <= k < r.value ==> !StartsWith(v[k..], p)
    ensures r.None? ==> forall k :: from <= k <= |v| ==> !StartsWith(v[k..], p)
    decreases |v| - from
  {
    if from > |v| then None
    else if StartsWith(v[from..], p) then Some(from)
    else if from == |v| then None
    else Find(v, p, from + 1)
  }

  /** What pins the answer of `Find` down from outside. */
  lemma FindIs(v: string, p: string, from: nat, k: nat)
    requires from <= k && k + |p| <= |v| && StartsWith(v[k..], p)
    requires forall j :: from <= j < k ==> !StartsWith(v[j..], p)
    ensures Find(v, p, from) == Some(k)
  {
    assert Find(v, p, from).Some? by { assert StartsWith(v[k..], p); }
  }

  /** An occurrence that fits in `v` stays the first one when bytes arrive behind it. */
  lemma FindExtends(v: string, p: string, from: nat, x: string)
    requires Find(v, p, from).Some?
    ensures Find(v + x, p, from) == Find(v, p, from)
  {
    var k := Find(v, p, from).value;
    assert (v + x)[k..] == v[k..] + x;
    assert (v + x)[k..][..|p|] == v[k..][..|p|];
    forall j | from <= j < k ensures !StartsWith((v + x)[j..], p) {
      assert (v + x)[j..][..|p|] == v[j..][..|p|];
    }
    FindIs(v + x, p, from, k);
  }

  /** The character at `i`, or NUL past the end (where the source reads a terminator). */
  function At(v: string, i: nat): char {
    if i < |v| then v[i] else '\0'
  }

  /** ASCII `tolower`. */
  function Lower(c: char): char {
    if 'A' <= c <= 'Z' then (c as int + 32) as char else c
  }

  function LowerAll(v: string): (r: string)
    ensures |r| == |v|
    ensures forall i :: 0 <= i < |v| ==> r[i] == Lower(v[i])
  {
    if v == "" then "" else [Lower(v[0])] + LowerAll(v[1..])
  }

  predicate StartsWithIgnoreCase(v: string, p: string) {
    |p| <= |v| && forall i :: 0 <= i < |p| ==> Lower(v[i]) == Lower(p[i])
  }
}
