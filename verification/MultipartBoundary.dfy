/** Which boundary a content type names: quoted or not, with or without parameters around it,
    and when there is none. */
module MultipartBoundary {
  import opened Text
  import opened HeaderText
  import opened MultipartModel

  const KEY: string := "boundary="

  /** The media type in any case of its letters. */
  predicate IsFormData(kind: string) {
    |kind| == 19 && StartsWithIgnoreCase(kind, "multipart/form-data")
  }

  lemma KeyAt(v: string, k: nat, from: nat)
    requires from <= k && k + 9 <= |v| && v[k..k + 9] == KEY && forall j :: from <= j < k ==> v[j] != '='
    ensures Find(v, KEY, from) == Some(k)
  {
    assert v[k..][..9] == v[k..k + 9];
    forall j | from <= j < k ensures !StartsWith(v[j..], KEY) {
      assert v[j..][8] == v[j + 8];
      assert j + 8 >= k ==> v[j + 8] == v[k..k + 9][j + 8 - k];
      assert KEY[8] == '=' && forall i :: 0 <= i < 8 ==> KEY[i] != '=';
    }
    FindIs(v, KEY, from, k);
  }

  lemma KeyFound(kind: string, mid: string, rest: string)
    requires '=' !in mid
    ensures var v, k := kind + mid + KEY + rest, |kind| + |mid|;
            Find(v, KEY, |kind|) == Some(k) && k + 9 <= |v| && v[k + 9..] == rest
  {
    var v, k := kind + mid + KEY + rest, |kind| + |mid|;
    assert v[k..k + 9] == KEY && v[k + 9..] == rest;
    forall j | |kind| <= j < k ensures v[j] != '=' {
      assert v[j] == mid[j - |kind|];
    }
    KeyAt(v, k, |kind|);
  }

  /** The boundary is what stands at `pos`, up to a semicolon, or between quotes. */
  predicate StandsAt(v: string, pos: nat) {
    && pos <= |v|
    && var quoted := At(v, pos) == '"';
       var start := if quoted then pos + 1 else pos;
       var stop := Find(v, if quoted then "\"" else ";", start);
       BoundaryOf(v) == Some(v[start..if stop.Some? then stop.value else |v|])
  }

  /** What follows the key decides. */
  lemma BoundaryIs(kind: string, mid: string, rest: string)
    requires IsFormData(kind) && '=' !in mid
    ensures StandsAt(kind + mid + KEY + rest, |kind + mid + KEY|)
  {
    var v := kind + mid + KEY + rest;
    KeyFound(kind, mid, rest);
    assert forall i :: 0 <= i < 19 ==> v[i] == kind[i];
    assert StartsWithIgnoreCase(v, "multipart/form-data");
    hide Find, StartsWithIgnoreCase;
  }

  lemma Regroup(a: string, b: string, c: string, d: string)
    ensures a + b + c + d == a + (b + c + d)
  {}

  lemma PlainToEnd(front: string, boundary: string)
    requires StandsAt(front + boundary, |front|) && ';' !in boundary && boundary != "" && boundary[0] != '"'
    ensures BoundaryOf(front + boundary) == Some(boundary)
  {
    var v := front + boundary;
    CharMissing(front, boundary, ';');
    assert v[|front|] == boundary[0] && v[|front|..|v|] == v[|front|..];
    hide Find, BoundaryOf;
  }

  lemma NoQuote(front: string, boundary: string, rest: string)
    requires boundary != "" && boundary[0] != '"'
    ensures At(front + boundary + rest, |front|) != '"'
  {}

  lemma PlainToSemicolon(front: string, boundary: string, behind: string)
    requires StandsAt(front + boundary + ";" + behind, |front|) && ';' !in boundary && boundary != "" && boundary[0] != '"'
    ensures BoundaryOf(front + boundary + ";" + behind) == Some(boundary)
  {
    hide Find, BoundaryOf, At;
    assert front + boundary + ";" + behind == front + boundary + (";" + behind);
    NoQuote(front, boundary, ";" + behind);
    CharFrom(front, boundary, ';', behind);
  }

  lemma QuoteBefore(front: string, rest: string)
    requires front != "" && front[|front| - 1] == '"'
    ensures At(front + rest, |front| - 1) == '"'
  {}

  lemma ToQuote(front: string, boundary: string, behind: string)
    requires front != "" && front[|front| - 1] == '"' && '"' !in boundary
    requires StandsAt(front + boundary + "\"" + behind, |front| - 1)
    ensures BoundaryOf(front + boundary + "\"" + behind) == Some(boundary)
  {
    hide Find, BoundaryOf, At;
    Regroup(front, boundary, "\"", behind);
    QuoteBefore(front, boundary + "\"" + behind);
    CharFrom(front, boundary, '"', behind);
  }

  /** A plain boundary ends at a semicolon or at the end. */
  lemma PlainBoundary(kind: string, mid: string, boundary: string, behind: string)
    requires IsFormData(kind) && '=' !in mid
    requires ';' !in boundary && boundary != "" && boundary[0] != '"'
    ensures BoundaryOf(kind + mid + KEY + boundary) == Some(boundary)
    ensures BoundaryOf(kind + mid + KEY + boundary + ";" + behind) == Some(boundary)
  {
    hide Find, BoundaryOf, IsFormData, StandsAt;
    var front := kind + mid + KEY;
    BoundaryIs(kind, mid, boundary);
    PlainToEnd(front, boundary);
    BoundaryIs(kind, mid, boundary + ";" + behind);
    Regroup(front, boundary, ";", behind);
    PlainToSemicolon(front, boundary, behind);
  }

  /** A quoted one ends at its quote. */
  lemma QuotedBoundary(kind: string, mid: string, boundary: string, behind: string)
    requires IsFormData(kind) && '=' !in mid && '"' !in boundary
    ensures BoundaryOf(kind + mid + KEY + "\"" + boundary + "\"" + behind) == Some(boundary)
  {
    hide Find, BoundaryOf, IsFormData, StandsAt;
    var front := kind + mid + KEY;
    BoundaryIs(kind, mid, "\"" + boundary + "\"" + behind);
    QuoteRegroups(front, boundary, behind);
    ToQuote(front + "\"", boundary, behind);
  }

  lemma QuoteRegroups(front: string, b: string, c: string)
    ensures front + "\"" + b + "\"" + c == front + ("\"" + b + "\"" + c)
  {}

  /** Another media type, or no boundary at all: the content type is unusable. */
  lemma NoBoundary(contentType: string)
    requires !StartsWithIgnoreCase(contentType, "multipart/form-data") || '=' !in contentType
    ensures BoundaryOf(contentType) == None
  {
    var found := Find(contentType, KEY, 19);
    if StartsWithIgnoreCase(contentType, "multipart/form-data") {
      forall j | 19 <= j <= |contentType| ensures !StartsWith(contentType[j..], KEY) {
        assert j + 8 < |contentType| ==> contentType[j..][8] == contentType[j + 8];
        assert KEY[8] == '=';
      }
    }
    hide Find;
  }
}
