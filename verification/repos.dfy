/**
 * The repository record and the per-record decisions of stages 2 and 3:
 * the fork filter of `parse_github_response` and the size filter and local
 * path of `git_ops_clone`. The JSON decoder and the `git clone` subprocess
 * are abstract: a body is the sequence of results its decoder produces, and
 * a clone's success is a function of the record.
 */
module Repos {
  import opened Sequences
  import GoStrings

  type uint64 = x: int | 0 <= x < 0x1_0000_0000_0000_0000

  /** A GitHub repository record; `localPath` is set by stage 3 only. */
  datatype Repo = Repo(name: string, cloneUrl: string, size: uint64, fork: bool, localPath: string)

  // ---------------------------------------------------------------------------
  // Stage 2: parse and filter.

  /** A record is forwarded unless it is a fork and forks are filtered out. */
  predicate Forwarded(forkFilter: bool, r: Repo) {
    !(r.fork && forkFilter)
  }

  /** One result of `dec.Decode(&r)` on a body: an array of records, or a decoding error. */
  datatype Decoded = Records(repos: seq<Repo>) | Malformed

  /** What stage 2 makes of one body: records forwarded, arrays completed, and whether decoding failed. */
  datatype Parsed = Parsed(forwarded: seq<Repo>, completed: nat, failed: bool)

  /**
   * Stage 2 on one body, whose decoder yields `body` before end of input:
   * each array's records pass the fork filter in order, and the first
   * decoding error abandons the rest of the body.
   */
  function ParseBody(forkFilter: bool, body: seq<Decoded>): Parsed {
    if |body| == 0 then Parsed([], 0, false)
    else
      match body[0]
      case Malformed => Parsed([], 0, true)
      case Records(rs) =>
        var rest := ParseBody(forkFilter, body[1..]);
        Parsed(Filter(r => Forwarded(forkFilter, r), rs) + rest.forwarded, rest.completed + 1, rest.failed)
  }

  /** The decoded arrays before the first decoding error. */
  function Accepted(body: seq<Decoded>): (n: nat)
    ensures n <= |body|
    ensures forall i :: 0 <= i < n ==> body[i].Records?
    ensures n < |body| ==> body[n].Malformed?
  {
    if |body| == 0 || body[0].Malformed? then 0 else 1 + Accepted(body[1..])
  }

  /** The records of the arrays before the first decoding error. */
  function RecordsOf(body: seq<Decoded>, n: nat): seq<Repo>
    requires n <= |body| && forall i :: 0 <= i < n ==> body[i].Records?
  {
    if n == 0 then [] else RecordsOf(body, n - 1) + body[n - 1].repos
  }

  /** The loop over one decoded array: the records that pass the fork filter, in order. */
  method ForwardRecords(forkFilter: bool, rs: seq<Repo>) returns (kept: seq<Repo>)
    ensures kept == Filter(r => Forwarded(forkFilter, r), rs)
  {
    kept := [];
    for k := 0 to |rs|
      invariant kept == Filter(r => Forwarded(forkFilter, r), rs[..k])
    {
      FilterAppend(r => Forwarded(forkFilter, r), rs[..k], [rs[k]]);
      assert rs[..k + 1] == rs[..k] + [rs[k]];
      if rs[k].fork && forkFilter {
        continue;
      }
      kept := kept + [rs[k]];
    }
    assert rs[..|rs|] == rs;
  }

  /** The report of a body whose first `i` arrays produced `forwarded`, followed by the rest. */
  function Resume(forkFilter: bool, forwarded: seq<Repo>, completed: nat, rest: seq<Decoded>): Parsed {
    var p := ParseBody(forkFilter, rest);
    Parsed(forwarded + p.forwarded, completed + p.completed, p.failed)
  }

  /** Forwarding one well-formed array moves it from the rest of the body into the report so far. */
  lemma ResumeStep(forkFilter: bool, forwarded: seq<Repo>, completed: nat, body: seq<Decoded>, i: nat, kept: seq<Repo>)
    requires i < |body| && body[i].Records?
    requires kept == Filter(r => Forwarded(forkFilter, r), body[i].repos)
    ensures Resume(forkFilter, forwarded, completed, body[i..]) == Resume(forkFilter, forwarded + kept, completed + 1, body[i + 1..])
  {
    assert body[i..][1..] == body[i + 1..];
    assert forwarded + (kept + ParseBody(forkFilter, body[i + 1..]).forwarded)
        == (forwarded + kept) + ParseBody(forkFilter, body[i + 1..]).forwarded;
  }

  /**
   * The per-body goroutine of `parse_github_response`: decodes arrays until
   * end of input or the first error, and forwards each record that passes
   * the fork filter.
   */
  method ParseGithubResponse(forkFilter: bool, body: seq<Decoded>) returns (p: Parsed)
    ensures p == ParseBody(forkFilter, body)
  {
    var forwarded: seq<Repo> := [];
    var completed := 0;
    var i := 0;
    assert body[0..] == body;
    while i < |body|
      invariant 0 <= i <= |body|
      invariant ParseBody(forkFilter, body) == Resume(forkFilter, forwarded, completed, body[i..])
    {
      if body[i].Malformed? {
        return Parsed(forwarded, completed, true);
      }
      var kept := ForwardRecords(forkFilter, body[i].repos);
      ResumeStep(forkFilter, forwarded, completed, body, i, kept);
      forwarded := forwarded + kept;
      completed := completed + 1;
      i := i + 1;
    }
    return Parsed(forwarded, completed, false);
  }

  /**
   * The fork filter decides forwarding alone: what stage 2 forwards from a
   * body is exactly the forwarded records of the arrays before the first
   * decoding error, in order; the completed count is the number of those
   * arrays, and the body is counted as failed exactly when a decoding error
   * cut it short.
   */
  lemma {:induction false} ParseBodyForwards(forkFilter: bool, body: seq<Decoded>)
    ensures var p, n := ParseBody(forkFilter, body), Accepted(body);
      && p.forwarded == Filter(r => Forwarded(forkFilter, r), RecordsOf(body, n))
      && p.completed == n
      && (p.failed <==> n < |body|)
  {
    if |body| > 0 && body[0].Records? {
      var tail := body[1..];
      ParseBodyForwards(forkFilter, tail);
      RecordsOfCons(body);
      FilterAppend(r => Forwarded(forkFilter, r), body[0].repos, RecordsOf(tail, Accepted(tail)));
    }
  }

  lemma {:induction false} RecordsOfPrefix(body: seq<Decoded>, tail: seq<Decoded>, n: nat)
    requires |body| >= 1 && body[0].Records? && tail == body[1..]
    requires n <= |tail| && forall i :: 0 <= i < n ==> tail[i].Records?
    ensures RecordsOf(body, n + 1) == body[0].repos + RecordsOf(tail, n)
  {
    if n > 0 {
      RecordsOfPrefix(body, tail, n - 1);
      assert body[n] == tail[n - 1];
      var head, prev, last := body[0].repos, RecordsOf(tail, n - 1), tail[n - 1].repos;
      calc {
        RecordsOf(body, n + 1);
        RecordsOf(body, n) + last;
        (head + prev) + last;
        head + (prev + last);
        head + RecordsOf(tail, n);
      }
    }
  }

  lemma RecordsOfCons(body: seq<Decoded>)
    requires |body| >= 1 && body[0].Records?
    ensures Accepted(body) == 1 + Accepted(body[1..])
    ensures RecordsOf(body, Accepted(body)) == body[0].repos + RecordsOf(body[1..], Accepted(body[1..]))
  {
    RecordsOfPrefix(body, body[1..], Accepted(body[1..]));
  }

  /** Without the fork filter every decoded record is forwarded. */
  lemma NoForkFilterForwardsAll(rs: seq<Repo>)
    ensures Filter(r => Forwarded(false, r), rs) == rs
  {
    if |rs| > 0 {
      NoForkFilterForwardsAll(rs[1..]);
      assert rs == [rs[0]] + rs[1..];
    }
  }

  // ---------------------------------------------------------------------------
  // Stage 3: size filter, clone and local path.

  /** A record is not cloned when a size filter is set and the record is larger. */
  predicate SkippedBySize(sizeFilter: uint64, r: Repo) {
    sizeFilter > 0 && r.size > sizeFilter
  }

  /**
   * `filepath.Join(dir, name)` on a Unix-like system, without the final
   * `Clean` step: empty elements are dropped and the rest joined with '/'.
   */
  function JoinPath(dir: string, name: string): (p: string)
    ensures dir == "" ==> p == name
    ensures name == "" ==> p == dir
    ensures dir != "" && name != "" ==> p == dir + "/" + name
  {
    if dir == "" then name else if name == "" then dir else dir + "/" + name
  }

  /**
   * The clone directory is named after the repository: the path's last
   * element, after its last '/', is the name whenever the name is a single
   * non-empty element.
   */
  lemma JoinPathBase(dir: string, name: string)
    requires name != "" && '/' !in name
    ensures var p, i := JoinPath(dir, name), GoStrings.LastIndexOf(JoinPath(dir, name), '/');
      p[i + 1..] == name
  {
    var p := JoinPath(dir, name);
    var i := GoStrings.LastIndexOf(p, '/');
    GoStrings.LastIndexOfSpec(p, '/');
    if dir != "" {
      assert p[|dir|] == '/';
    }
  }

  /** The record a successful clone forwards. */
  function Cloned(workingDir: string, r: Repo): (c: Repo)
    ensures c.localPath == JoinPath(workingDir, r.name)
    ensures c.(localPath := r.localPath) == r
  {
    r.(localPath := JoinPath(workingDir, r.name))
  }

  /** What stage 3 makes of a stream of records: the clones forwarded and its counters. */
  datatype CloneReport = CloneReport(local: seq<Repo>, completed: nat, errors: nat)

  /**
   * One record received by stage 3: a record over the size limit is counted
   * as completed and dropped; otherwise it is cloned, and `cloneOk(r)` says
   * whether `git clone` succeeded. A success is forwarded with its local
   * path and counted as completed; a failure is counted as an error.
   */
  function CloneStep(sizeFilter: uint64, workingDir: string, cloneOk: Repo -> bool, acc: CloneReport, r: Repo): CloneReport {
    if SkippedBySize(sizeFilter, r) then acc.(completed := acc.completed + 1)
    else if cloneOk(r) then CloneReport(acc.local + [Cloned(workingDir, r)], acc.completed + 1, acc.errors)
    else acc.(errors := acc.errors + 1)
  }

  /** Stage 3 over a stream of records, received in order. */
  function CloneAll(sizeFilter: uint64, workingDir: string, cloneOk: Repo -> bool, rs: seq<Repo>): CloneReport
  {
    if |rs| == 0 then CloneReport([], 0, 0)
    else CloneStep(sizeFilter, workingDir, cloneOk, CloneAll(sizeFilter, workingDir, cloneOk, rs[..|rs| - 1]), rs[|rs| - 1])
  }

  /** A record stage 3 forwards: not skipped and cloned successfully. */
  predicate ClonedOk(sizeFilter: uint64, cloneOk: Repo -> bool, r: Repo) {
    !SkippedBySize(sizeFilter, r) && cloneOk(r)
  }

  /**
   * `git_ops_clone` as a sequential loop over the records it receives (the
   * clones run one at a time here).
   */
  method GitOpsClone(sizeFilter: uint64, workingDir: string, cloneOk: Repo -> bool, rs: seq<Repo>)
    returns (report: CloneReport)
    ensures report == CloneAll(sizeFilter, workingDir, cloneOk, rs)
  {
    var local: seq<Repo> := [];
    var completed, errors := 0, 0;
    for i := 0 to |rs|
      invariant CloneAll(sizeFilter, workingDir, cloneOk, rs[..i]) == CloneReport(local, completed, errors)
    {
      assert rs[..i + 1][..i] == rs[..i];
      var r := rs[i];
      if sizeFilter > 0 && r.size > sizeFilter {
        completed := completed + 1;
        continue;
      }
      if !cloneOk(r) {
        errors := errors + 1;
        continue;
      }
      local := local + [r.(localPath := JoinPath(workingDir, r.name))];
      completed := completed + 1;
    }
    assert rs[..|rs|] == rs;
    return CloneReport(local, completed, errors);
  }

  /**
   * Stage 3's accounting: every record is counted once, as completed
   * (skipped or cloned) or as an error, and the completed count is the
   * clones forwarded plus the records skipped by size.
   */
  lemma {:induction false} CloneAllCounts(sizeFilter: uint64, workingDir: string, cloneOk: Repo -> bool, rs: seq<Repo>)
    ensures var c := CloneAll(sizeFilter, workingDir, cloneOk, rs);
      && c.completed + c.errors == |rs|
      && c.completed == |c.local| + |Filter(r => SkippedBySize(sizeFilter, r), rs)|
  {
    if |rs| > 0 {
      var init, last := rs[..|rs| - 1], rs[|rs| - 1];
      CloneAllCounts(sizeFilter, workingDir, cloneOk, init);
      assert rs == init + [last];
      FilterSnoc(r => SkippedBySize(sizeFilter, r), init, last);
    }
  }

  /**
   * Stage 3's output: the records that pass the size filter and clone, in
   * order, each carrying `JoinPath(workingDir, name)` as its local path.
   */
  lemma {:induction false} CloneAllForwards(sizeFilter: uint64, workingDir: string, cloneOk: Repo -> bool, rs: seq<Repo>)
    ensures CloneAll(sizeFilter, workingDir, cloneOk, rs).local
         == Map((r: Repo) => Cloned(workingDir, r), Filter(r => ClonedOk(sizeFilter, cloneOk, r), rs))
  {
    if |rs| > 0 {
      var p := r => ClonedOk(sizeFilter, cloneOk, r);
      var f := (r: Repo) => Cloned(workingDir, r);
      var init, last := rs[..|rs| - 1], rs[|rs| - 1];
      CloneAllForwards(sizeFilter, workingDir, cloneOk, init);
      assert rs == init + [last];
      FilterSnoc(p, init, last);
      if p(last) {
        MapSnoc(f, Filter(p, init), last);
      }
    }
  }

  /** With no size filter nothing is skipped. */
  lemma NoSizeFilterSkipsNothing(rs: seq<Repo>)
    ensures Filter(r => SkippedBySize(0, r), rs) == []
  {
    if |rs| > 0 {
      NoSizeFilterSkipsNothing(rs[1..]);
    }
  }
}
