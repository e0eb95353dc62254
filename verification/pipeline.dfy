/**
 * The harvester's stages 2 to 5 composed sequentially: the decoded pages are
 * filtered into repository records, the records are cloned, the clones are
 * scanned for identities, and the identities are folded into the
 * deduplicated address set and the grouped role map. The concurrent source
 * runs every stage as goroutines that hand items on through channels, so
 * each stage sees its input in some interleaving; the theorems here say that
 * the two maps do not depend on that order.
 */
module Pipeline {
  import opened Outcomes
  import opened Sequences
  import opened Roles
  import opened Repos
  import opened Shortlog
  import opened Aggregate

  /** The command-line switches and the environment's answers that the stages depend on. */
  datatype Config = Config(
    forkFilter: bool,
    sizeFilter: uint64,
    workingDir: string,
    cloneOk: Repo -> bool,
    shortlog: Shortlogs)

  /** What stage 5 hands to the report writers. */
  datatype Harvested = Harvested(deduped: map<string, nat>, grouped: map<Key, Role>)

  /** Stage 2 over all fetched pages: the records each page forwards. */
  function Stage2(cfg: Config, pages: seq<seq<Decoded>>): seq<Repo> {
    FlatMap(body => ParseBody(cfg.forkFilter, body).forwarded, pages)
  }

  /** Stage 3: the clones forwarded. */
  function Stage3(cfg: Config, rs: seq<Repo>): seq<Repo> {
    CloneAll(cfg.sizeFilter, cfg.workingDir, cfg.cloneOk, rs).local
  }

  /** Stage 4 on the output of stages 2 and 3. */
  function Identities(cfg: Config, pages: seq<seq<Decoded>>): Outcome<seq<EmailContext>> {
    Stage4(cfg.shortlog, Stage3(cfg, Stage2(cfg, pages)))
  }

  function EmailOfContext(c: EmailContext): string {
    c.email
  }

  /**
   * The whole pipeline up to the report. Stage 4 sends each identity's
   * address to the dedup stage and the identity itself to the grouping
   * stage.
   */
  function Harvest(cfg: Config, pages: seq<seq<Decoded>>): Outcome<Harvested> {
    match Identities(cfg, pages)
    case Panic => Panic
    case Ok(cs) => Ok(Harvested(DedupFold(Map(EmailOfContext, cs)), GroupFold(cs)))
  }

  /** Stage 2 only forwards records that pass the fork filter. */
  lemma Stage2Forwarded(cfg: Config, pages: seq<seq<Decoded>>, r: Repo)
    requires r in Stage2(cfg, pages)
    ensures Forwarded(cfg.forkFilter, r)
  {
    var f := body => ParseBody(cfg.forkFilter, body).forwarded;
    var body := InFlatMap(f, pages, r);
    ParseBodyForwards(cfg.forkFilter, body);
    FilterIn(r => Forwarded(cfg.forkFilter, r), RecordsOf(body, Accepted(body)), r);
  }

  /** Stage 3 only forwards records that were not skipped and cloned, with their local path set. */
  lemma Stage3Cloned(cfg: Config, rs: seq<Repo>, c: Repo) returns (r: Repo)
    requires c in Stage3(cfg, rs)
    ensures r in rs && ClonedOk(cfg.sizeFilter, cfg.cloneOk, r) && c == Cloned(cfg.workingDir, r)
  {
    CloneAllForwards(cfg.sizeFilter, cfg.workingDir, cfg.cloneOk, rs);
    var kept := Filter(r => ClonedOk(cfg.sizeFilter, cfg.cloneOk, r), rs);
    var i :| 0 <= i < |Stage3(cfg, rs)| && Stage3(cfg, rs)[i] == c;
    r := kept[i];
    FilterIn(r => ClonedOk(cfg.sizeFilter, cfg.cloneOk, r), rs, r);
  }

  /** Reordering the input of stage 3 only reorders its output. */
  lemma Stage3Permutation(cfg: Config, a: seq<Repo>, b: seq<Repo>)
    requires multiset(a) == multiset(b)
    ensures multiset(Stage3(cfg, a)) == multiset(Stage3(cfg, b))
  {
    var p := r => ClonedOk(cfg.sizeFilter, cfg.cloneOk, r);
    var f := (r: Repo) => Cloned(cfg.workingDir, r);
    CloneAllForwards(cfg.sizeFilter, cfg.workingDir, cfg.cloneOk, a);
    CloneAllForwards(cfg.sizeFilter, cfg.workingDir, cfg.cloneOk, b);
    FilterPermutation(p, a, b);
    MapPermutation(f, Filter(p, a), Filter(p, b));
  }

  /** Whether some task panics depends only on which tasks there are. */
  lemma AnyPanicSameTasks(shortlog: Shortlogs, a: seq<Task>, b: seq<Task>)
    requires multiset(a) == multiset(b)
    ensures AnyPanic(shortlog, a) <==> AnyPanic(shortlog, b)
  {
    if AnyPanic(shortlog, a) {
      var k, i :| 0 <= k < |a| && 0 <= i < |LinesOf(shortlog(a[k].repo, a[k].role))|
        && LinePanics(LinesOf(shortlog(a[k].repo, a[k].role))[i]);
      assert a[k] in multiset(b);
      var k' :| 0 <= k' < |b| && b[k'] == a[k];
    }
    if AnyPanic(shortlog, b) {
      var k, i :| 0 <= k < |b| && 0 <= i < |LinesOf(shortlog(b[k].repo, b[k].role))|
        && LinePanics(LinesOf(shortlog(b[k].repo, b[k].role))[i]);
      assert b[k] in multiset(a);
      var k' :| 0 <= k' < |a| && a[k'] == b[k];
    }
  }

  /** Reordering the input of stage 4 only reorders the identities it sends, and panics alike. */
  lemma Stage4Permutation(shortlog: Shortlogs, a: seq<Repo>, b: seq<Repo>)
    requires multiset(a) == multiset(b)
    ensures Stage4(shortlog, a).Ok? <==> Stage4(shortlog, b).Ok?
    ensures Stage4(shortlog, a).Ok? ==> multiset(Stage4(shortlog, a).value) == multiset(Stage4(shortlog, b).value)
  {
    var ta, tb := FlatMap(TasksOf, a), FlatMap(TasksOf, b);
    FlatMapPermutation(TasksOf, a, b);
    AnyPanicSameTasks(shortlog, ta, tb);
    FlatMapPermutation(t => TaskContexts(shortlog, t), ta, tb);
  }

  /**
   * Running the shortlog tasks in any order, including the committer task of
   * a repository before its author task, panics exactly when stage 4 does
   * and otherwise sends the same identities.
   */
  lemma TaskOrderFree(shortlog: Shortlogs, repos: seq<Repo>, ts: seq<Task>)
    requires multiset(ts) == multiset(FlatMap(TasksOf, repos))
    ensures AnyPanic(shortlog, ts) <==> Stage4(shortlog, repos).Panic?
    ensures !AnyPanic(shortlog, ts) ==>
      multiset(FlatMap(t => TaskContexts(shortlog, t), ts)) == multiset(Stage4(shortlog, repos).value)
  {
    var tasks := FlatMap(TasksOf, repos);
    AnyPanicSameTasks(shortlog, ts, tasks);
    FlatMapPermutation(t => TaskContexts(shortlog, t), ts, tasks);
  }

  /** The two folds give the same maps for any two deliveries of the same identities. */
  lemma FoldsOrderFree(a: seq<EmailContext>, b: seq<EmailContext>)
    requires multiset(a) == multiset(b)
    ensures DedupFold(Map(EmailOfContext, a)) == DedupFold(Map(EmailOfContext, b))
    ensures GroupFold(a) == GroupFold(b)
  {
    MapPermutation(EmailOfContext, a, b);
    SameMultisetSameElements(Map(EmailOfContext, a), Map(EmailOfContext, b));
    DedupOrderFree(Map(EmailOfContext, a), Map(EmailOfContext, b));
    SameMultisetSameElements(a, b);
    GroupOrderFree(a, b);
  }

  lemma SameMultisetSameElements<T>(a: seq<T>, b: seq<T>)
    requires multiset(a) == multiset(b)
    ensures forall x :: x in a <==> x in b
  {
    forall x
      ensures x in a <==> x in b
    {
      assert x in a <==> x in multiset(a);
      assert x in b <==> x in multiset(b);
    }
  }

  /**
   * The central claim: the pages may be fetched in any order and the result
   * is the same, panics included.
   */
  lemma HarvestOrderFree(cfg: Config, p1: seq<seq<Decoded>>, p2: seq<seq<Decoded>>)
    requires multiset(p1) == multiset(p2)
    ensures Harvest(cfg, p1) == Harvest(cfg, p2)
  {
    var f := body => ParseBody(cfg.forkFilter, body).forwarded;
    FlatMapPermutation(f, p1, p2);
    Stage3Permutation(cfg, Stage2(cfg, p1), Stage2(cfg, p2));
    Stage4Permutation(cfg.shortlog, Stage3(cfg, Stage2(cfg, p1)), Stage3(cfg, Stage2(cfg, p2)));
    if Identities(cfg, p1).Ok? {
      FoldsOrderFree(Identities(cfg, p1).value, Identities(cfg, p2).value);
    }
  }

  /**
   * Within the pipeline, stage 5 receives the identities and the addresses
   * in whatever interleaving the concurrent stage 4 produces, each on its
   * own channel; any such delivery gives the maps of the sequential run.
   */
  lemma DeliveryOrderFree(cfg: Config, pages: seq<seq<Decoded>>, emails: seq<string>, contexts: seq<EmailContext>)
    requires Identities(cfg, pages).Ok?
    requires multiset(contexts) == multiset(Identities(cfg, pages).value)
    requires multiset(emails) == multiset(Map(EmailOfContext, Identities(cfg, pages).value))
    ensures Harvest(cfg, pages) == Ok(Harvested(DedupFold(emails), GroupFold(contexts)))
  {
    var cs := Identities(cfg, pages).value;
    SameMultisetSameElements(contexts, cs);
    GroupOrderFree(contexts, cs);
    SameMultisetSameElements(emails, Map(EmailOfContext, cs));
    DedupOrderFree(emails, Map(EmailOfContext, cs));
  }

  /**
   * What the maps contain: every grouped key names a clone, with its local
   * path, of a record that passed the fork and size filters; its value is
   * Author, Committer or Both; and the deduplicated addresses are exactly
   * the addresses of the grouped keys.
   */
  lemma HarvestProvenance(cfg: Config, pages: seq<seq<Decoded>>, k: Key) returns (r: Repo)
    requires Harvest(cfg, pages).Ok? && k in Harvest(cfg, pages).value.grouped
    ensures r in Stage2(cfg, pages) && Forwarded(cfg.forkFilter, r)
    ensures !SkippedBySize(cfg.sizeFilter, r) && cfg.cloneOk(r)
    ensures k.repo == Cloned(cfg.workingDir, r)
    ensures Harvest(cfg, pages).value.grouped[k] in {Author, Committer, Both}
    ensures k.email in Harvest(cfg, pages).value.deduped
  {
    var cs := Identities(cfg, pages).value;
    GroupIsOr(cs);
    r := SeenProvenance(cfg, pages, k);
    assert RolesFromShortlog(cs) by {
      Stage4Provenance(cfg.shortlog, Stage3(cfg, Stage2(cfg, pages)));
    }
    GroupRoles(cs, k);
    SeenIsDeduped(cs, k);
  }

  /** A key seen among the identities names a clone of a record stage 2 forwarded and stage 3 cloned. */
  lemma SeenProvenance(cfg: Config, pages: seq<seq<Decoded>>, k: Key) returns (r: Repo)
    requires Identities(cfg, pages).Ok? && Seen(Identities(cfg, pages).value, k)
    ensures r in Stage2(cfg, pages) && Forwarded(cfg.forkFilter, r)
    ensures !SkippedBySize(cfg.sizeFilter, r) && cfg.cloneOk(r)
    ensures k.repo == Cloned(cfg.workingDir, r)
  {
    var cs := Identities(cfg, pages).value;
    var i :| 0 <= i < |cs| && KeyOf(cs[i]) == k;
    Stage4Provenance(cfg.shortlog, Stage3(cfg, Stage2(cfg, pages)));
    assert cs[i] in cs;
    r := Stage3Cloned(cfg, Stage2(cfg, pages), k.repo);
    Stage2Forwarded(cfg, pages, r);
  }

  /** The address of every identity seen is among the deduplicated addresses. */
  lemma SeenIsDeduped(cs: seq<EmailContext>, k: Key)
    requires Seen(cs, k)
    ensures k.email in DedupFold(Map(EmailOfContext, cs))
  {
    var i :| 0 <= i < |cs| && KeyOf(cs[i]) == k;
    DedupIsPresence(Map(EmailOfContext, cs));
    assert Map(EmailOfContext, cs)[i] == k.email;
  }

  /** Conversely, every deduplicated address belongs to some grouped key. */
  lemma DedupedAreGrouped(cfg: Config, pages: seq<seq<Decoded>>, e: string) returns (k: Key)
    requires Harvest(cfg, pages).Ok? && e in Harvest(cfg, pages).value.deduped
    ensures k in Harvest(cfg, pages).value.grouped && k.email == e
  {
    var cs := Identities(cfg, pages).value;
    DedupIsPresence(Map(EmailOfContext, cs));
    var i :| 0 <= i < |cs| && Map(EmailOfContext, cs)[i] == e;
    GroupIsOr(cs);
    k := KeyOf(cs[i]);
    assert Seen(cs, k);
  }
}
