/**
 * `create_output_file`: the deduplicated addresses are written one per line,
 * each followed by the platform's line separator, in Go's map order; the
 * buffer is then written with the bounded retry loop.
 */
module AddressFile {
  import opened Retry

  /** The buffer for the addresses in `order`: each followed by `sep`. */
  function Lines(order: seq<string>, sep: string): string {
    if |order| == 0 then "" else order[0] + sep + Lines(order[1..], sep)
  }

  /** `order` lists every key of `emails` exactly once. */
  ghost predicate KeyOrder(order: seq<string>, emails: map<string, nat>) {
    && (forall i :: 0 <= i < |order| ==> order[i] in emails)
    && (forall k :: k in emails ==> k in order)
    && (forall i, j :: 0 <= i < j < |order| ==> order[i] != order[j])
  }

  /**
   * `create_output_file` with the file system abstracted: the keys are
   * visited in an order the model does not fix, the buffer is built, and
   * `writes(i)` is the outcome of write attempt `i`.
   */
  method CreateOutputFile(emails: map<string, nat>, sep: string, writes: nat -> bool)
    returns (content: string, ok: bool, ghost order: seq<string>)
    ensures KeyOrder(order, emails)
    ensures content == Lines(order, sep)
    ensures ok <==> SomeAttemptSucceeds(writes)
  {
    content := "";
    order := [];
    var remaining := emails.Keys;
    while remaining != {}
      invariant remaining <= emails.Keys
      invariant forall i :: 0 <= i < |order| ==> order[i] in emails && order[i] !in remaining
      invariant forall k :: k in emails && k !in remaining ==> k in order
      invariant forall i, j :: 0 <= i < j < |order| ==> order[i] != order[j]
      invariant content == Lines(order, sep)
      decreases |remaining|
    {
      var key :| key in remaining;
      LinesSnoc(order, key, sep);
      content := content + key + sep;
      order := order + [key];
      remaining := remaining - {key};
    }
    var attempts;
    ok, attempts := WriteAttempts(writes);
  }

  lemma {:induction false} LinesSnoc(order: seq<string>, key: string, sep: string)
    ensures Lines(order + [key], sep) == Lines(order, sep) + key + sep
  {
    if |order| > 0 {
      assert (order + [key])[1..] == order[1..] + [key];
      LinesSnoc(order[1..], key, sep);
    }
  }

  /** The position of the first `c` in `s`, if any. */
  function FirstIndex(s: string, c: char): (r: int)
    ensures -1 <= r < |s|
    ensures r == -1 <==> c !in s
    ensures r >= 0 ==> s[r] == c && c !in s[..r]
  {
    if |s| == 0 then -1
    else if s[0] == c then 0
    else
      var r := FirstIndex(s[1..], c);
      assert s[1..][..r + 1] == s[1..r + 2] by {
        if r >= 0 {
          assert s[1..][..r + 1] == s[1..][..r] + [s[1..][r]];
        }
      }
      if r < 0 then -1 else r + 1
  }

  /**
   * A reader for the file: the text up to the first character of `sep` is
   * one address, and reading resumes after the separator.
   */
  function ReadLines(s: string, sep: string): seq<string>
    requires |sep| > 0
    decreases |s|
  {
    if |s| == 0 then []
    else
      var i := FirstIndex(s, sep[0]);
      if i < 0 then [s]
      else if i + |sep| >= |s| then [s[..i]]
      else [s[..i]] + ReadLines(s[i + |sep|..], sep)
  }

  /**
   * Reading the buffer back line by line gives the addresses in the order
   * they were written, provided no address contains the separator's first
   * character.
   */
  lemma {:induction false} ReadLinesOfLines(order: seq<string>, sep: string)
    requires |sep| > 0
    requires forall i :: 0 <= i < |order| ==> sep[0] !in order[i]
    ensures ReadLines(Lines(order, sep), sep) == order
  {
    if |order| > 0 {
      ReadLinesStep(order[0], sep, Lines(order[1..], sep));
      ReadLinesOfLines(order[1..], sep);
    }
  }

  /** One address and its separator are read back as one line. */
  lemma ReadLinesStep(a: string, sep: string, rest: string)
    requires |sep| > 0 && sep[0] !in a
    ensures ReadLines(a + sep + rest, sep) == [a] + ReadLines(rest, sep)
  {
    var s := a + sep + rest;
    assert s == a + (sep + rest);
    FirstIndexAfter(a, sep + rest, sep[0]);
    assert s[..|a|] == a;
    assert s[|a| + |sep|..] == rest;
  }

  lemma FirstIndexAfter(a: string, b: string, c: char)
    requires c !in a && |b| > 0 && b[0] == c
    ensures FirstIndex(a + b, c) == |a|
  {
    var s := a + b;
    assert s[|a|] == c;
    assert s[..|a|] == a;
  }
}
