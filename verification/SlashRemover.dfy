/** Normalising the slashes of a path: index scans that find the first thing to do, and a
    compaction in place. */
module SlashRemover {
  import opened Text

  // What is meant.

  /** Each run of slashes becomes one. */
  function Collapse(s: string): string {
    if |s| < 2 then s
    else if s[0] == '/' && s[1] == '/' then Collapse(s[1..])
    else [s[0]] + Collapse(s[1..])
  }

  /** No slash at the end, except where it is all there is. */
  function Strip(s: string): (r: string)
    ensures r <= s
  {
    if |s| >= 2 && s[|s| - 1] == '/' then Strip(s[..|s| - 1]) else s
  }

  predicate NoDouble(s: string) {
    forall i :: 0 < i < |s| ==> !(s[i - 1] == '/' && s[i] == '/')
  }

  predicate NoTrail(s: string) { |s| < 2 || s[|s| - 1] != '/' }

  datatype Mode = Trailing | Duplicate | Both

  function Normalised(s: string, mode: Mode): string {
    match mode
    case Trailing => Strip(s)
    case Duplicate => Collapse(s)
    case Both => Collapse(Strip(s))
  }

  predicate IsNormal(s: string, mode: Mode) {
    match mode
    case Trailing => NoTrail(s)
    case Duplicate => NoDouble(s)
    case Both => NoTrail(s) && NoDouble(s)
  }

  lemma {:induction false} StripIsNormal(s: string)
    ensures NoTrail(Strip(s)) && (Strip(s) == s <==> NoTrail(s))
  {
    if |s| >= 2 && s[|s| - 1] == '/' {
      StripIsNormal(s[..|s| - 1]);
    }
  }

  lemma {:induction false} CollapseEnds(s: string)
    ensures s != "" ==> Collapse(s) != "" && Collapse(s)[0] == s[0] && Collapse(s)[|Collapse(s)| - 1] == s[|s| - 1]
    ensures |Collapse(s)| <= |s|
    ensures s == "" ==> Collapse(s) == ""
  {
    if |s| >= 2 {
      CollapseEnds(s[1..]);
    }
  }

  lemma {:induction false} CollapseIsNormal(s: string)
    ensures NoDouble(Collapse(s))
    ensures Collapse(s) == s <==> NoDouble(s)
  {
    if |s| >= 2 {
      CollapseIsNormal(s[1..]);
      CollapseEnds(s[1..]);
      if s[0] == '/' && s[1] == '/' {
        assert !NoDouble(s);
      } else {
        NoDoubleCons(s[0], Collapse(s[1..]));
        NoDoubleCons(s[0], s[1..]);
        assert s == [s[0]] + s[1..];
      }
    }
  }

  lemma NoDoubleCons(c: char, s: string)
    requires s != "" && !(c == '/' && s[0] == '/')
    ensures NoDouble([c] + s) <==> NoDouble(s)
  {
    var t := [c] + s;
    forall i | 0 < i < |s| ensures s[i - 1] == t[i] && s[i] == t[i + 1] {}
    if NoDouble(t) {
      forall i | 0 < i < |s| ensures !(s[i - 1] == '/' && s[i] == '/') {
        assert !(t[i + 1 - 1] == '/' && t[i + 1] == '/');
      }
    }
  }

  lemma {:induction false} CollapseSnoc(s: string, c: char)
    requires s != ""
    ensures Collapse(s + [c]) == if c == '/' && s[|s| - 1] == '/' then Collapse(s) else Collapse(s) + [c]
  {
    if |s| == 1 {
      assert (s + [c])[1..] == [c];
      assert s + [c] == [s[0]] + [c];
    } else {
      assert (s + [c])[1..] == s[1..] + [c];
      CollapseSnoc(s[1..], c);
    }
  }

  /** Collapsing keeps a normal end, so both steps may come in either order. */
  lemma {:induction false} StepsCommute(s: string)
    ensures Strip(Collapse(s)) == Collapse(Strip(s))
  {
    CollapseEnds(s);
    if |s| >= 2 && s[|s| - 1] == '/' {
      var init := s[..|s| - 1];
      assert s == init + ['/'];
      CollapseSnoc(init, '/');
      CollapseEnds(init);
      StepsCommute(init);
      var c := Collapse(init);
      if init[|init| - 1] != '/' {
        assert (c + ['/'])[..|c|] == c;
      }
    }
  }

  /** A normalised path is normal; a path is normal exactly if nothing changes; and doing it
      again changes nothing. */
  lemma NormalisedIsNormal(s: string, mode: Mode)
    ensures IsNormal(Normalised(s, mode), mode)
    ensures Normalised(s, mode) == s <==> IsNormal(s, mode)
    ensures Normalised(Normalised(s, mode), mode) == Normalised(s, mode)
  {
    BothNormal(s);
    BothNormal(Normalised(s, mode));
    hide Collapse, Strip, NoDouble, NoTrail;
  }

  lemma BothNormal(s: string)
    ensures NoTrail(Strip(s)) && (Strip(s) == s <==> NoTrail(s))
    ensures NoDouble(Collapse(s)) && (Collapse(s) == s <==> NoDouble(s))
    ensures NoTrail(Collapse(Strip(s))) && NoDouble(Collapse(Strip(s)))
    ensures Collapse(Strip(s)) == s <==> NoTrail(s) && NoDouble(s)
  {
    StripIsNormal(s);
    CollapseIsNormal(s);
    var t := Strip(s);
    CollapseIsNormal(t);
    CollapseEnds(t);
    hide Collapse, Strip, NoDouble;
  }

  // How it is done.

  /** The last character to keep, if there are slashes behind it. */
  method FindTrailingSlashes(url: string) returns (r: Option<nat>)
    ensures r.None? <==> NoTrail(url)
    ensures r.Some? ==> r.value < |url| && url[..r.value + 1] == Strip(url)
  {
    var len := |url|;
    if len < 2 || url[len - 1] != '/' {
      return None;
    }
    var a := len - 2;
    assert url[..len] == url;
    assert url[..len - 1] == url[..len][..len - 1];
    while a > 0 && url[a] == '/'
      invariant 0 <= a < len - 1 && Strip(url[..a + 1]) == Strip(url)
      decreases a
    {
      assert url[..a + 1][..a] == url[..a];
      a := a - 1;
    }
    return Some(a);
  }

  /** The first slash that follows a slash, in a path that begins with one. */
  method FindDuplicateSlashes(url: string) returns (r: Option<nat>)
    requires url != "" ==> url[0] == '/'
    ensures r.None? <==> NoDouble(url)
    ensures r.Some? ==> 0 < r.value < |url| && url[r.value - 1] == '/' && url[r.value] == '/' && NoDouble(url[..r.value])
  {
    var len := |url|;
    if len < 2 {
      return None;
    }
    var startedPair := true;
    var a := 1;
    while a < len
      invariant 1 <= a <= len && startedPair == (url[a - 1] == '/')
      invariant NoDouble(url[..a])
    {
      if url[a] != '/' {
        startedPair := false;
      } else {
        if startedPair {
          assert !NoDouble(url);
          return Some(a);
        }
        startedPair := true;
      }
      NoDoubleSnoc(url, a);
      a := a + 1;
    }
    assert url[..len] == url;
    return None;
  }

  lemma NoDoubleSnoc(s: string, a: nat)
    requires 0 < a < |s| && NoDouble(s[..a]) && !(s[a - 1] == '/' && s[a] == '/')
    ensures NoDouble(s[..a + 1])
  {
    var t := s[..a + 1];
    forall i | 0 < i < |t| ensures !(t[i - 1] == '/' && t[i] == '/') {
      if i < a {
        assert !(s[..a][i - 1] == '/' && s[..a][i] == '/');
      }
    }
  }

  /** Compaction in place: `start` writes, `b` reads.  The first `n` characters are the
      collapsed path. */
  method RemoveDuplicateSlashes(url: array<char>, start: nat) returns (n: nat)
    requires 0 < start < url.Length && url[start - 1] == '/' && url[start] == '/' && NoDouble(url[..start])
    modifies url
    ensures n <= url.Length && url[..n] == Collapse(old(url[..]))
  {
    ghost var all := url[..];
    var w, b := start - 1, start + 1;
    Beginning(all, start);
    hide Collapse, NoDouble;
    assert url[..w + 1] == all[..start];
    while b < url.Length
      invariant w + 1 < b <= url.Length
      invariant url[..w + 1] == Collapse(all[..b])
      invariant url[w] == all[b - 1]
      invariant forall k :: b <= k < url.Length ==> url[k] == all[k]
    {
      var c := url[b];
      CollapseNext(all, b);
      if c != '/' || url[w] != '/' {
        w := w + 1;
        Write(url, w, c);
      }
      b := b + 1;
    }
    assert all[..b] == all;
    return w + 1;
  }

  method Write(url: array<char>, w: nat, c: char)
    requires w < url.Length
    modifies url
    ensures url[..w + 1] == old(url[..w]) + [c]
    ensures forall k :: w < k < url.Length ==> url[k] == old(url[k])
  {
    url[w] := c;
  }

  lemma CollapseNext(s: string, b: nat)
    requires 0 < b < |s|
    ensures Collapse(s[..b + 1]) ==
            if s[b] == '/' && s[b - 1] == '/' then Collapse(s[..b]) else Collapse(s[..b]) + [s[b]]
  {
    CollapseSnoc(s[..b], s[b]);
    assert s[..b] + [s[b]] == s[..b + 1];
  }

  /** What comes before the first double slash is kept as it is. */
  lemma Beginning(s: string, start: nat)
    requires 0 < start < |s| && s[start - 1] == '/' && s[start] == '/' && NoDouble(s[..start])
    ensures Collapse(s[..start + 1]) == s[..start]
  {
    CollapseIsNormal(s[..start]);
    CollapseSnoc(s[..start], s[start]);
    assert s[..start + 1] == s[..start] + [s[start]];
  }

  /** Both scans at once: the end to cut to, and the first double slash before it. */
  method FindExcessiveSlashes(url: string) returns (trail: Option<nat>, dup: Option<nat>)
    requires url != "" ==> url[0] == '/'
    ensures trail.None? <==> NoTrail(url)
    ensures trail.Some? ==> trail.value < |url| && url[..trail.value + 1] == Strip(url)
    ensures dup.None? <==> NoDouble(Strip(url))
    ensures dup.Some? ==>
              && 0 < dup.value < |Strip(url)|
              && url[dup.value - 1] == '/' && url[dup.value] == '/' && NoDouble(url[..dup.value])
  {
    var len := |url|;
    if len < 2 {
      return None, None;
    }
    var trailIdx := len - 1;
    assert url[..len] == url;
    while trailIdx > 0 && url[trailIdx] == '/'
      invariant 0 <= trailIdx < len && Strip(url[..trailIdx + 1]) == Strip(url)
      decreases trailIdx
    {
      assert url[..trailIdx + 1][..trailIdx] == url[..trailIdx];
      trailIdx := trailIdx - 1;
    }
    assert Strip(url) == url[..trailIdx + 1];
    if trailIdx == 0 {
      return Some(0), None;
    }
    var dupIdx, startedPair := 1, true;
    while dupIdx < trailIdx
      invariant 1 <= dupIdx <= trailIdx && startedPair == (url[dupIdx - 1] == '/')
      invariant NoDouble(url[..dupIdx])
    {
      if url[dupIdx] != '/' {
        startedPair := false;
      } else {
        if startedPair {
          break;
        }
        startedPair := true;
      }
      NoDoubleSnoc(url, dupIdx);
      dupIdx := dupIdx + 1;
    }
    trail := if trailIdx != len - 1 then Some(trailIdx) else None;
    if dupIdx == trailIdx {
      NoDoubleSnoc(url, dupIdx);
      return trail, None;
    }
    ghost var t := Strip(url);
    assert t[dupIdx - 1] == '/' && t[dupIdx] == '/';
    return trail, Some(dupIdx);
  }

  method ToArray(s: string) returns (a: array<char>)
    ensures fresh(a) && a[..] == s
  {
    a := new char[|s|](i requires 0 <= i < |s| => s[i]);
  }

  method Collapsed(path: string, dup: nat) returns (r: string)
    requires 0 < dup < |path| && path[dup - 1] == '/' && path[dup] == '/' && NoDouble(path[..dup])
    ensures r == Collapse(path)
  {
    var url := ToArray(path);
    assert url[..][..dup] == url[..dup];
    var n := RemoveDuplicateSlashes(url, dup);
    return url[..n];
  }

  /** A path is rewritten exactly if it is not normal, to its normal form. */
  method HandleReq(path: string, mode: Mode) returns (rewritten: bool, newPath: string)
    requires path != "" ==> path[0] == '/'
    ensures rewritten <==> !IsNormal(path, mode)
    ensures newPath == Normalised(path, mode)
  {
    NormalisedIsNormal(path, mode);
    hide Collapse, Strip, NoDouble, NoTrail;
    match mode {
      case Trailing =>
        var find := FindTrailingSlashes(path);
        if find.None? {
          return false, path;
        }
        return true, path[..find.value + 1];
      case Duplicate =>
        var find := FindDuplicateSlashes(path);
        if find.None? {
          return false, path;
        }
        newPath := Collapsed(path, find.value);
        return true, newPath;
      case Both =>
        BothNormal(path);
        var trail, dup := FindExcessiveSlashes(path);
        if trail.None? && dup.None? {
          return false, path;
        }
        newPath := if trail.Some? then path[..trail.value + 1] else path;
        assert newPath == Strip(path);
        if dup.Some? {
          assert newPath[..dup.value] == path[..dup.value];
          newPath := Collapsed(newPath, dup.value);
        } else {
          BothNormal(newPath);
        }
        return true, newPath;
    }
  }
}
