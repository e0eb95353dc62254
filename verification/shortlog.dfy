/**
 * Stage 4, `git_ops_shortlog`: each cloned repository is scanned twice, once
 * per role, and every line of `git shortlog -n -e -s` output yields an email
 * address. The subprocess is abstract: `shortlog(repo, role)` is the output
 * it produced, as lines, or a failure.
 */
module Shortlog {
  import opened Outcomes
  import opened GoStrings
  import opened Sequences
  import opened Roles
  import opened Repos

  /**
   * The slice `line[LastIndex(line, "<") + 1 : len(line) - 1]`: the text
   * strictly after the last '<' (from the start when there is none) and
   * before the final character. Go panics when the bounds are out of order,
   * that is on an empty line or one that ends in '<'.
   */
  function EmailOf(line: string): Outcome<string> {
    var idx := LastIndexOf(line, '<');
    if |line| == 0 || idx + 1 > |line| - 1 then Panic
    else Ok(line[idx + 1 .. |line| - 1])
  }

  /**
   * The slice panics exactly on an empty line and on a line ending in '<';
   * otherwise the address is the `len - idx - 2` characters between the
   * last '<' and the final character, and it holds no '<'.
   */
  lemma EmailOfSlice(line: string)
    ensures EmailOf(line).Ok? <==> |line| >= 1 && line[|line| - 1] != '<'
    ensures EmailOf(line).Ok? ==> var idx := LastIndexOf(line, '<');
      && |EmailOf(line).value| == |line| - idx - 2
      && line == line[..idx + 1] + EmailOf(line).value + [line[|line| - 1]]
      && '<' !in EmailOf(line).value
  {
    var idx := LastIndexOf(line, '<');
    LastIndexOfSpec(line, '<');
    if EmailOf(line).Ok? {
      var e := EmailOf(line).value;
      assert line == line[..idx + 1] + e + [line[|line| - 1]];
      forall j | 0 <= j < |e|
        ensures e[j] != '<'
      {
        assert e[j] == line[idx + 1 + j];
      }
    }
  }

  /** A line of `git shortlog -n -e -s` output: count, tab, name, then the address in angle brackets. */
  function ShortlogLine(count: string, name: string, email: string): string {
    count + "\t" + name + " <" + email + ">"
  }

  /**
   * Round trip: the address of a well-formed shortlog line is recovered,
   * whatever the name contains, provided the address has no '<'.
   */
  lemma EmailOfShortlogLine(count: string, name: string, email: string)
    requires '<' !in email
    ensures EmailOf(ShortlogLine(count, name, email)) == Ok(email)
  {
    var head := count + "\t" + name + " <";
    var line := ShortlogLine(count, name, email);
    assert line == head + email + ">";
    var idx := LastIndexOf(line, '<');
    LastIndexOfSpec(line, '<');
    assert line[|head| - 1] == '<';
    forall j | |head| <= j < |line|
      ensures line[j] != '<'
    {
      if j < |line| - 1 {
        assert line[j] == email[j - |head|];
      }
    }
    assert idx == |head| - 1;
    assert line[idx + 1 .. |line| - 1] == email;
  }

  /** A line without '<' yields all but its final character. */
  lemma EmailOfNoBracket(line: string)
    requires |line| >= 1 && '<' !in line
    ensures EmailOf(line) == Ok(line[..|line| - 1])
  {
  }

  /** What one identity line tells stage 5: the address, the repository it came from and the role. */
  datatype EmailContext = EmailContext(repo: Repo, email: string, role: Role)

  /** The outcome of one shortlog subprocess: a failure, or the lines scanned (possibly cut short by a scan error). */
  datatype Run = CommandFailed | Output(lines: seq<string>, scanError: bool)

  /** The lines a run contributes; a failed command contributes none. */
  function LinesOf(run: Run): seq<string> {
    match run
    case CommandFailed => []
    case Output(lines, _) => lines
  }

  /** The address a line yields, where it yields one (a panicking line stops the program). */
  function Extracted(line: string): string {
    match EmailOf(line)
    case Ok(e) => e
    case Panic => ""
  }

  /** The slice's bounds are out of order: the line is empty or ends in '<'. */
  predicate LinePanics(line: string) {
    |line| == 0 || line[|line| - 1] == '<'
  }

  /** The identities one run sends downstream, in order. */
  function RunContexts(repo: Repo, role: Role, lines: seq<string>): seq<EmailContext> {
    ContextsBefore(Extracted, repo, role, lines, |lines|)
  }

  /** The identities sent for the first `n` lines, `slice` giving the address each line yields. */
  function ContextsBefore(slice: string -> string, repo: Repo, role: Role, lines: seq<string>, n: nat): seq<EmailContext>
    requires n <= |lines|
  {
    if n == 0 then []
    else ContextsBefore(slice, repo, role, lines, n - 1) + [EmailContext(repo, slice(lines[n - 1]), role)]
  }

  /** A run sends one identity per line, each carrying the run's repository and role and the line's address. */
  lemma RunContextsShape(repo: Repo, role: Role, lines: seq<string>)
    ensures |RunContexts(repo, role, lines)| == |lines|
    ensures forall i :: 0 <= i < |lines| ==> RunContexts(repo, role, lines)[i] == EmailContext(repo, Extracted(lines[i]), role)
  {
    ContextsBeforeShape(Extracted, repo, role, lines, |lines|);
  }

  lemma {:induction false} ContextsBeforeShape(slice: string -> string, repo: Repo, role: Role, lines: seq<string>, n: nat)
    requires n <= |lines|
    ensures |ContextsBefore(slice, repo, role, lines, n)| == n
    ensures forall i :: 0 <= i < n ==> ContextsBefore(slice, repo, role, lines, n)[i] == EmailContext(repo, slice(lines[i]), role)
  {
    if n > 0 {
      ContextsBeforeShape(slice, repo, role, lines, n - 1);
    }
  }

  /** The slice expression of the scanning loop, on one line. */
  method SliceEmail(fullAuthor: string) returns (r: Outcome<string>)
    ensures r == EmailOf(fullAuthor)
    ensures r.Panic? <==> LinePanics(fullAuthor)
  {
    EmailOfSlice(fullAuthor);
    var idx := LastIndexOf(fullAuthor, '<');
    if |fullAuthor| == 0 || idx + 1 > |fullAuthor| - 1 {
      return Panic;
    }
    return Ok(fullAuthor[idx + 1 .. |fullAuthor| - 1]);
  }

  /**
   * The scanning goroutine for one repository and role: every line is
   * sliced and sent on both output channels (here: as one context, whose
   * address is the plain email stream). A line whose slice is out of range
   * panics, which ends the program.
   */
  method ScanShortlog(repo: Repo, role: Role, lines: seq<string>) returns (out: Outcome<seq<EmailContext>>)
    ensures out.Panic? <==> exists i :: 0 <= i < |lines| && LinePanics(lines[i])
    ensures out.Ok? ==> out.value == RunContexts(repo, role, lines)
  {
    var sent: seq<EmailContext> := [];
    for i := 0 to |lines|
      invariant forall j :: 0 <= j < i ==> !LinePanics(lines[j])
      invariant sent == ContextsBefore(Extracted, repo, role, lines, i)
    {
      var email := SliceEmail(lines[i]);
      if email.Panic? {
        return Panic;
      }
      sent := sent + [EmailContext(repo, email.value, role)];
    }
    return Ok(sent);
  }

  /** One shortlog task: a repository and the role it is scanned for. */
  datatype Task = Task(repo: Repo, role: Role)

  /** The two tasks per repository, in the order the source's map happens to list them. */
  function TasksOf(r: Repo): seq<Task> {
    [Task(r, Author), Task(r, Committer)]
  }

  /** The lines each task's subprocess produced. */
  type Shortlogs = (Repo, Role) -> Run

  function TaskContexts(shortlog: Shortlogs, t: Task): seq<EmailContext> {
    RunContexts(t.repo, t.role, LinesOf(shortlog(t.repo, t.role)))
  }

  /** Some line of some task's output panics. */
  predicate AnyPanic(shortlog: Shortlogs, tasks: seq<Task>) {
    exists k, i :: 0 <= k < |tasks| && 0 <= i < |LinesOf(shortlog(tasks[k].repo, tasks[k].role))|
      && LinePanics(LinesOf(shortlog(tasks[k].repo, tasks[k].role))[i])
  }

  /**
   * Stage 4 run sequentially: every task of every repository, in order.
   * The concurrent source sends the same identities in some interleaving.
   */
  function Stage4(shortlog: Shortlogs, repos: seq<Repo>): Outcome<seq<EmailContext>> {
    var tasks := FlatMap(TasksOf, repos);
    if AnyPanic(shortlog, tasks) then Panic else Ok(FlatMap(t => TaskContexts(shortlog, t), tasks))
  }

  /** Every identity stage 4 sends carries a role it scanned for, from a repository it received. */
  lemma {:induction false} Stage4Provenance(shortlog: Shortlogs, repos: seq<Repo>)
    ensures Stage4(shortlog, repos).Ok? ==>
      forall c :: c in Stage4(shortlog, repos).value ==> c.repo in repos && (c.role == Author || c.role == Committer)
  {
    if Stage4(shortlog, repos).Ok? {
      forall c | c in Stage4(shortlog, repos).value
        ensures c.repo in repos && (c.role == Author || c.role == Committer)
      {
        var tasks := FlatMap(TasksOf, repos);
        var t := InFlatMap(t => TaskContexts(shortlog, t), tasks, c);
        var r := InFlatMap(TasksOf, repos, t);
        RunContextsShape(t.repo, t.role, LinesOf(shortlog(t.repo, t.role)));
      }
    }
  }
}
