/**
 * The few functions of Go's `strings` package that the harvester relies on,
 * stated over `string` (= `seq<char>`). Only non-empty separators are used by
 * the program, so the special meaning Go gives to an empty separator is not
 * modelled.
 */
module GoStrings {
  import opened Outcomes

  /** `strings.HasSuffix(s, suffix)`. */
  predicate HasSuffix(s: string, suffix: string) {
    |suffix| <= |s| && s[|s| - |suffix|..] == suffix
  }

  /**
   * A separator for `strings.Split`. Every split in the program uses a
   * two-character separator (`", "` or `"; "`), so that is all this model
   * admits.
   */
  type Sep = s: string | |s| == 2 witness ", "

  /** `sep` occurs in `s` starting at index `i`. */
  predicate OccursAt(s: string, sep: Sep, i: int) {
    0 <= i && i + 1 < |s| && s[i] == sep[0] && s[i + 1] == sep[1]
  }

  /** `sep` occurs nowhere in `s`. */
  predicate Free(s: string, sep: Sep) {
    forall j :: 0 <= j < |s| ==> !OccursAt(s, sep, j)
  }

  /** The first occurrence of `sep` in `s` at or after `from`. */
  function IndexFrom(s: string, sep: Sep, from: nat): (r: Option<nat>)
    ensures r.Some? ==> from <= r.value && OccursAt(s, sep, r.value)
    ensures r.Some? ==> forall j :: from <= j < r.value ==> !OccursAt(s, sep, j)
    ensures r.None? <==> forall j :: from <= j < |s| ==> !OccursAt(s, sep, j)
    decreases |s| - from
  {
    if from + 1 >= |s| then None
    else if OccursAt(s, sep, from) then Some(from)
    else IndexFrom(s, sep, from + 1)
  }

  /** `strings.Index(s, sep)`, with -1 modelled as `None`: the first occurrence. */
  function IndexOf(s: string, sep: Sep): (r: Option<nat>)
    ensures r.Some? ==> OccursAt(s, sep, r.value)
    ensures r.Some? ==> forall j :: 0 <= j < r.value ==> !OccursAt(s, sep, j)
    ensures r.None? <==> Free(s, sep)
  {
    IndexFrom(s, sep, 0)
  }

  /** `strings.Join(parts, sep)`. */
  function Join(parts: seq<string>, sep: Sep): string {
    if |parts| == 0 then ""
    else if |parts| == 1 then parts[0]
    else parts[0] + sep + Join(parts[1..], sep)
  }

  /**
   * `strings.Split(s, sep)`: the pieces between
   * successive non-overlapping occurrences of `sep`, scanned left to right.
   * There is always at least one piece and no piece contains `sep`
   * (`SplitJoin` shows that the pieces rebuild `s`).
   */
  function Split(s: string, sep: Sep): (parts: seq<string>)
    ensures |parts| >= 1
    ensures forall k :: 0 <= k < |parts| ==> Free(parts[k], sep)
    decreases |s|
  {
    match IndexOf(s, sep)
    case None => [s]
    case Some(i) =>
      var head, rest := s[..i], Split(s[i + |sep|..], sep);
      assert Free(head, sep) by {
        forall j | 0 <= j < |head| ensures !OccursAt(head, sep, j) {
          assert OccursAt(head, sep, j) ==> OccursAt(s, sep, j);
        }
      }
      [head] + rest
  }

  /** Joining the pieces of a split back with the separator gives the original string. */
  lemma {:induction false} SplitJoin(s: string, sep: Sep)
    ensures Join(Split(s, sep), sep) == s
    decreases |s|
  {
    match IndexOf(s, sep)
    case None =>
    case Some(i) =>
      var head, tail := s[..i], s[i + |sep|..];
      var rest := Split(tail, sep);
      assert Split(s, sep) == [head] + rest;
      SplitJoin(tail, sep);
      JoinCons(head, rest, sep);
      assert s == head + sep + tail;
  }

  lemma JoinCons(head: string, rest: seq<string>, sep: Sep)
    requires |rest| >= 1
    ensures Join([head] + rest, sep) == head + sep + Join(rest, sep)
  {
    assert ([head] + rest)[1..] == rest;
  }

  /**
   * When the first character of `sep` does not occur in `a`, the first
   * occurrence of `sep` in `a + sep + b` is the one right after `a`, so the
   * first piece of the split is `a`.
   */
  lemma SplitAfter(a: string, sep: Sep, b: string)
    requires sep[0] !in a
    ensures IndexOf(a + sep + b, sep) == Some(|a|)
    ensures Split(a + sep + b, sep) == [a] + Split(b, sep)
  {
    var s := a + sep + b;
    assert OccursAt(s, sep, |a|) by { assert s[|a|] == sep[0] && s[|a| + 1] == sep[1]; }
    forall j | 0 <= j < |a| ensures !OccursAt(s, sep, j) {
      assert s[j] == a[j];
    }
    assert s[..|a|] == a;
    assert s[|a| + |sep|..] == b;
  }

  /** When the first character of `sep` does not occur in `a`, splitting `a` gives `a` alone. */
  lemma SplitWhole(a: string, sep: Sep)
    requires sep[0] !in a
    ensures Split(a, sep) == [a]
  {
    assert Free(a, sep);
  }

  /** `strings.LastIndex(s, string(c))` for a single character `c`: -1 when `c` is absent. */
  function LastIndexOf(s: string, c: char): (r: int)
    ensures -1 <= r < |s|
    ensures r >= 0 ==> s[r] == c
  {
    LastBefore(s, c, |s|)
  }

  /** The last index below `n` holding `c`, scanning backwards as `strings.LastIndex` does. */
  function LastBefore(s: string, c: char, n: nat): (r: int)
    requires n <= |s|
    ensures -1 <= r < n
    ensures r >= 0 ==> s[r] == c
  {
    if n == 0 then -1
    else if s[n - 1] == c then n - 1
    else LastBefore(s, c, n - 1)
  }

  /** Nothing after the last occurrence is `c`, and there is none exactly when the result is -1. */
  lemma LastIndexOfSpec(s: string, c: char)
    ensures LastIndexOf(s, c) == -1 <==> c !in s
    ensures forall j :: LastIndexOf(s, c) < j < |s| ==> s[j] != c
  {
    LastBeforeSpec(s, c, |s|);
  }

  lemma {:induction false} LastBeforeSpec(s: string, c: char, n: nat)
    requires n <= |s|
    ensures LastBefore(s, c, n) == -1 <==> forall j :: 0 <= j < n ==> s[j] != c
    ensures forall j :: LastBefore(s, c, n) < j < n ==> s[j] != c
  {
    if n > 0 && s[n - 1] != c {
      LastBeforeSpec(s, c, n - 1);
    }
  }
}
