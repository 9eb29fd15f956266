/** Models of the Rust `str` operations the linter relies on, restricted to ASCII text.
    Strings are `seq<char>`; every operation here is defined on all inputs except where
    a pattern must be non-empty. */
module Text {

  datatype Option<T> = None | Some(value: T)

  /** The ASCII part of Rust's `char::is_whitespace`: space and U+0009 to U+000D. */
  predicate IsWhitespace(c: char) {
    c == ' ' || 9 <= c as int <= 13
  }

  function TrimStart(s: string): (r: string)
    ensures |r| <= |s|
    decreases |s|
  {
    if |s| > 0 && IsWhitespace(s[0]) then TrimStart(s[1..]) else s
  }

  function TrimEnd(s: string): (r: string)
    ensures |r| <= |s|
    decreases |s|
  {
    if |s| > 0 && IsWhitespace(s[|s| - 1]) then TrimEnd(s[..|s| - 1]) else s
  }

  /** `str::trim`. */
  function Trim(s: string): (r: string) {
    TrimEnd(TrimStart(s))
  }

  /** `str::starts_with` with a string pattern. */
  predicate StartsWith(s: string, p: string) {
    |p| <= |s| && s[..|p|] == p
  }

  /** `str::strip_prefix`. */
  function StripPrefix(s: string, p: string): (r: Option<string>)
    ensures r.Some? <==> StartsWith(s, p)
    ensures r.Some? ==> s == p + r.value && r.value == s[|p|..]
  {
    if StartsWith(s, p) then Some(s[|p|..]) else None
  }

  /** `p` occurs in `s` starting at index `i`. */
  predicate OccursAt(s: string, p: string, i: nat) {
    i + |p| <= |s| && s[i..i + |p|] == p
  }

  /** `str::contains` with a string pattern. */
  predicate Contains(s: string, p: string) {
    exists i: nat :: i <= |s| && OccursAt(s, p, i)
  }

  /** The first occurrence of `p` in `s` at or after index `k`. */
  function FindFrom(s: string, p: string, k: nat): (r: Option<nat>)
    requires k <= |s|
    ensures r.Some? ==> k <= r.value && OccursAt(s, p, r.value)
    ensures r.Some? ==> forall j: nat :: k <= j < r.value ==> !OccursAt(s, p, j)
    ensures r.None? ==> forall j: nat :: k <= j <= |s| ==> !OccursAt(s, p, j)
    decreases |s| - k
  {
    if OccursAt(s, p, k) then Some(k)
    else if k == |s| then None
    else FindFrom(s, p, k + 1)
  }

  /** `str::find`: the index of the first occurrence of `p` in `s`. */
  function Find(s: string, p: string): (r: Option<nat>)
    ensures r.Some? ==> OccursAt(s, p, r.value)
    ensures r.Some? ==> forall j: nat :: j < r.value ==> !OccursAt(s, p, j)
    ensures r.None? <==> !Contains(s, p)
  {
    FindFrom(s, p, 0)
  }

  /** Drops one trailing carriage return, as `str::lines` does before a line feed. */
  function StripCarriageReturn(s: string): (r: string) {
    if |s| > 0 && s[|s| - 1] == '\r' then s[..|s| - 1] else s
  }

  /** `str::lines`: the pieces between line feeds, each without its "\n" or "\r\n"
      terminator; a last piece without a terminator is kept unless it is empty. */
  function Lines(s: string): (r: seq<string>)
    decreases |s|
  {
    if |s| == 0 then []
    else match Find(s, "\n")
      case None => [s]
      case Some(i) => [StripCarriageReturn(s[..i])] + Lines(s[i + 1..])
  }

  /** `str::split` with a non-empty string pattern. */
  function Split(s: string, p: string): (r: seq<string>)
    requires |p| > 0
    ensures |r| >= 1
    decreases |s|
  {
    match Find(s, p)
    case None => [s]
    case Some(i) => [s[..i]] + Split(s[i + |p|..], p)
  }

  /** `str::splitn`: at most `n` pieces, the last holding the rest of `s` unsplit. */
  function SplitN(s: string, n: nat, p: string): (r: seq<string>)
    requires |p| > 0
    ensures |r| <= n
    ensures n >= 1 ==> |r| >= 1
    ensures n == 1 ==> r == [s]
    decreases n
  {
    if n == 0 then []
    else if n == 1 then [s]
    else match Find(s, p)
      case None => [s]
      case Some(i) => [s[..i]] + SplitN(s[i + |p|..], n - 1, p)
  }

  /** `parts` joined with `sep` between consecutive elements. */
  function Join(parts: seq<string>, sep: string): (r: string) {
    if |parts| == 0 then []
    else if |parts| == 1 then parts[0]
    else parts[0] + sep + Join(parts[1..], sep)
  }

  /** No element of `segs` contains `p`. */
  predicate Avoids(segs: seq<string>, p: string) {
    forall x :: x in segs ==> !Contains(x, p)
  }

  lemma OccursInPrefix(s: string, n: nat, p: string, j: nat)
    requires n <= |s| && OccursAt(s[..n], p, j)
    ensures OccursAt(s, p, j)
  {
    assert s[..n][j..j + |p|] == s[j..j + |p|];
  }

  lemma OccursInSuffix(s: string, k: nat, p: string, j: nat)
    requires k <= |s| && OccursAt(s[k..], p, j)
    ensures OccursAt(s, p, k + j)
  {
    assert s[k..][j..j + |p|] == s[k + j..k + j + |p|];
  }

  /** Splitting and re-joining with the same pattern gives back the input. */
  lemma {:induction false} SplitJoin(s: string, p: string)
    requires |p| > 0
    ensures Join(Split(s, p), p) == s
    decreases |s|
  {
    var found := Find(s, p);
    if found.Some? {
      var i := found.value;
      SplitJoin(s[i + |p|..], p);
      SplitStep(s, p, i);
    }
  }

  lemma SplitStep(s: string, p: string, i: nat)
    requires |p| > 0 && Find(s, p) == Some(i)
    requires Join(Split(s[i + |p|..], p), p) == s[i + |p|..]
    ensures Join(Split(s, p), p) == s
  {
    var head, rest := s[..i], s[i + |p|..];
    var tail := Split(rest, p);
    assert Split(s, p) == [head] + tail;
    JoinCons(head, tail, p);
    Decompose(s, p, i);
  }

  lemma Decompose(s: string, p: string, i: nat)
    requires OccursAt(s, p, i)
    ensures s == s[..i] + p + s[i + |p|..]
  {
    assert s == s[..i] + s[i..i + |p|] + s[i + |p|..];
  }

  lemma JoinCons(a: string, tail: seq<string>, sep: string)
    requires |tail| >= 1
    ensures Join([a] + tail, sep) == a + sep + Join(tail, sep)
  {
    assert ([a] + tail)[1..] == tail;
  }

  /** No piece of a split contains the pattern split on. */
  lemma {:induction false} SplitAvoidsPattern(s: string, p: string)
    requires |p| > 0
    ensures Avoids(Split(s, p), p)
    decreases |s|
  {
    match Find(s, p)
    case None =>
    case Some(i) =>
      var rest := s[i + |p|..];
      SplitAvoidsPattern(rest, p);
      if Contains(s[..i], p) {
        var j: nat :| j <= i && OccursAt(s[..i], p, j);
        OccursInPrefix(s, i, p, j);
      }
  }

  /** A piece of a split contains a pattern only if the whole string does. */
  lemma {:induction false} SplitKeepsAbsence(s: string, p: string, q: string)
    requires |p| > 0 && !Contains(s, q)
    ensures Avoids(Split(s, p), q)
    decreases |s|
  {
    match Find(s, p)
    case None =>
    case Some(i) =>
      var rest := s[i + |p|..];
      if Contains(rest, q) {
        var j: nat :| j <= |rest| && OccursAt(rest, q, j);
        OccursInSuffix(s, i + |p|, q, j);
      }
      SplitKeepsAbsence(rest, p, q);
      if Contains(s[..i], q) {
        var j: nat :| j <= i && OccursAt(s[..i], q, j);
        OccursInPrefix(s, i, q, j);
      }
  }

  /** Searching for a one-character pattern finds the first place that character occurs. */
  lemma FindChar(s: string, c: char)
    ensures Find(s, [c]).Some? ==>
      Find(s, [c]).value < |s| && s[Find(s, [c]).value] == c && c !in s[..Find(s, [c]).value]
    ensures Find(s, [c]).None? <==> c !in s
  {
    var found := Find(s, [c]);
    if found.Some? {
      var e := found.value;
      assert s[e..e + 1] == [s[e]];
      forall j | 0 <= j < e ensures s[j] != c {
        assert s[j..j + 1] == [s[j]];
        assert !OccursAt(s, [c], j);
      }
    } else {
      forall j | 0 <= j < |s| ensures s[j] != c {
        assert s[j..j + 1] == [s[j]];
        assert !OccursAt(s, [c], j);
      }
    }
    if c in s {
      var j :| 0 <= j < |s| && s[j] == c;
      assert s[j..j + 1] == [c];
      assert OccursAt(s, [c], j);
    }
  }
}
