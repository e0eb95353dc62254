/**
 * Stage 6, the report writers. `create_output_json` walks the grouped map in
 * Go's unspecified map order and builds two views of it: for each repository
 * name its clone URL and the role label of every address seen in it, and for
 * each mail domain and address the list of repositories the address appears
 * in. `create_output_file` writes the deduplicated addresses one per line.
 * The walk is a method that picks keys in an arbitrary order; the order it
 * chose is returned as a ghost value so that the report can be related to a
 * left fold over it, and the lemmas below say which parts of the report do
 * not depend on that order.
 */
module Report {
  import opened GoStrings
  import opened Sequences
  import opened Roles
  import opened Repos
  import opened Aggregate
  import opened Retry

  /** Stand-in for an empty address. */
  const Blank := "!blank!"
  /** Domain of an address without one. */
  const NoDomain := "!none!"

  /** The address as it is written in the report: the empty address becomes `Blank`. */
  function Display(email: string): string {
    if email == "" then Blank else email
  }

  /** The text after the last `@`, when that `@` is not the first character. */
  function Domain(email: string): string {
    if email == "" then NoDomain
    else
      var at := LastIndexOf(email, '@');
      if at > 0 then email[at + 1..] else NoDomain
  }

  /** An address `local@domain` with a non-empty local part has domain `domain`. */
  lemma DomainOfAddress(local: string, domain: string)
    requires local != "" && '@' !in domain
    ensures Domain(local + "@" + domain) == domain
  {
    var email := local + "@" + domain;
    var at := LastIndexOf(email, '@');
    LastIndexOfSpec(email, '@');
    assert email[|local|] == '@';
    assert at == |local|;
    assert email[at + 1..] == domain;
  }

  /** An address whose only `@`, if any, is its first character has no domain. */
  lemma DomainWithoutAt(email: string)
    requires email == "" || '@' !in email[1..]
    ensures Domain(email) == NoDomain
  {
    LastIndexOfSpec(email, '@');
  }

  /** Conversely, a domain that is not `NoDomain` is the tail after an `@` preceded by a non-empty local part. */
  lemma DomainSplit(email: string) returns (local: string)
    requires Domain(email) != NoDomain
    ensures local != "" && email == local + "@" + Domain(email) && '@' !in Domain(email)
  {
    var at := LastIndexOf(email, '@');
    LastIndexOfSpec(email, '@');
    local := email[..at];
    assert email == email[..at] + [email[at]] + email[at + 1..];
    var tail := email[at + 1..];
    forall j | 0 <= j < |tail|
      ensures tail[j] != '@'
    {
      assert tail[j] == email[at + 1 + j];
    }
  }

  /** The sentinel substitution does not move an address to another domain. */
  lemma DomainOfDisplay(email: string)
    ensures Domain(Display(email)) == Domain(email)
  {
    if email == "" {
      DomainWithoutAt(Blank);
    }
  }

  /** One element of an `emails[domain][address]` list (`FmtRepoPerEmail`). */
  datatype Entry = Entry(repoName: string, repoUrl: string, role: string)

  /** One element of the `repos` map (`FmtEmailPerRepo`). */
  datatype RepoReport = RepoReport(url: string, emails: map<string, string>)

  datatype Report = Report(repos: map<string, RepoReport>, emails: map<string, map<string, seq<Entry>>>)

  /** A key of the grouped map together with its role mask, as the walk visits it. */
  type Item = (Key, Role)

  function EntryOf(it: Item): Entry {
    Entry(it.0.repo.name, it.0.repo.cloneUrl, Label(it.1))
  }

  type RepoView = map<string, RepoReport>
  type EmailView = map<string, map<string, seq<Entry>>>

  /** The `repos` update for one grouped entry: the first key with a name fixes its URL, the address gets the role label. */
  function AddRepo(repos: RepoView, it: Item): RepoView {
    var name := it.0.repo.name;
    var rr := if name in repos then repos[name] else RepoReport(it.0.repo.cloneUrl, map[]);
    repos[name := rr.(emails := rr.emails[Display(it.0.email) := Label(it.1)])]
  }

  /** The `emails` update for one grouped entry: one entry appended under its domain and address. */
  function AddEmail(emails: EmailView, it: Item): EmailView {
    var email, domain := Display(it.0.email), Domain(it.0.email);
    var byDomain := if domain in emails then emails[domain] else map[];
    var list := if email in byDomain then byDomain[email] else [];
    emails[domain := byDomain[email := list + [EntryOf(it)]]]
  }

  /** The `repos` view after visiting `items` in this order. */
  function ReposOf(items: seq<Item>): RepoView {
    if |items| == 0 then map[]
    else AddRepo(ReposOf(items[..|items| - 1]), items[|items| - 1])
  }

  /** The `emails` view after visiting `items` in this order. */
  function EmailsOf(items: seq<Item>): EmailView {
    if |items| == 0 then map[]
    else AddEmail(EmailsOf(items[..|items| - 1]), items[|items| - 1])
  }

  function ReportOf(items: seq<Item>): Report {
    Report(ReposOf(items), EmailsOf(items))
  }

  /** The walk has visited `order` and has `remaining` still to visit. */
  ghost predicate VisitedSoFar(order: seq<Item>, remaining: set<Key>, grouped: map<Key, Role>) {
    && remaining <= grouped.Keys
    && (forall i :: 0 <= i < |order| ==> order[i].0 in grouped && order[i].0 !in remaining && grouped[order[i].0] == order[i].1)
    && (forall k :: k in grouped && k !in remaining ==> exists i :: 0 <= i < |order| && order[i].0 == k)
    && (forall i, j :: 0 <= i < j < |order| ==> order[i].0 != order[j].0)
  }

  /** Visiting one more remaining key keeps the bookkeeping. */
  lemma VisitStep(order: seq<Item>, remaining: set<Key>, grouped: map<Key, Role>, key: Key)
    requires VisitedSoFar(order, remaining, grouped) && key in remaining
    ensures VisitedSoFar(order + [(key, grouped[key])], remaining - {key}, grouped)
  {
    var order' := order + [(key, grouped[key])];
    forall k | k in grouped && k !in remaining - {key}
      ensures exists i :: 0 <= i < |order'| && order'[i].0 == k
    {
      if k == key {
        assert order'[|order|].0 == k;
      } else {
        var i :| 0 <= i < |order| && order[i].0 == k;
        assert order'[i].0 == k;
      }
    }
  }

  /** `order` is an iteration of `grouped`: every key exactly once, each with its value. */
  ghost predicate IterationOf(order: seq<Item>, grouped: map<Key, Role>) {
    VisitedSoFar(order, {}, grouped)
  }

  /**
   * `create_output_json` up to the serialisation: the report is built by
   * the walk below, and the serialised report is then written with the
   * bounded retry loop (`writes(i)` is the outcome of attempt `i`).
   */
  method CreateOutputJson(grouped: map<Key, Role>, writes: nat -> bool)
    returns (report: Report, ok: bool, ghost order: seq<Item>)
    ensures IterationOf(order, grouped)
    ensures report == ReportOf(order)
    ensures ok <==> SomeAttemptSucceeds(writes)
  {
    var repos, emails;
    repos, emails, order := BuildReport(grouped);
    report := Report(repos, emails);
    var attempts;
    ok, attempts := WriteAttempts(writes);
  }

  /**
   * The loop of `create_output_json`: the keys of `grouped` are visited in
   * an order the model does not fix (Go's map order), and both views are
   * updated in place for each.
   */
  method BuildReport(grouped: map<Key, Role>) returns (repos: RepoView, emails: EmailView, ghost order: seq<Item>)
    ensures IterationOf(order, grouped)
    ensures repos == ReposOf(order) && emails == EmailsOf(order)
  {
    repos, emails := map[], map[];
    var remaining := grouped.Keys;
    order := [];
    while remaining != {}
      invariant VisitedSoFar(order, remaining, grouped)
      invariant repos == ReposOf(order) && emails == EmailsOf(order)
      decreases |remaining|
    {
      var key :| key in remaining;
      var roleId := grouped[key];
      repos, emails := AddEntry(repos, emails, key, roleId);
      FoldsSnoc(order, (key, roleId));
      VisitStep(order, remaining, grouped, key);
      order := order + [(key, roleId)];
      remaining := remaining - {key};
    }
  }

  /** The loop body of `create_output_json` for one grouped entry, updating both maps in place. */
  method AddEntry(repos: RepoView, emails: EmailView, key: Key, roleId: Role) returns (repos': RepoView, emails': EmailView)
    ensures repos' == AddRepo(repos, (key, roleId))
    ensures emails' == AddEmail(emails, (key, roleId))
    ensures var name, e := key.repo.name, Display(key.email);
      && name in repos'
      && repos'[name].url == (if name in repos then repos[name].url else key.repo.cloneUrl)
      && e in repos'[name].emails && repos'[name].emails[e] == Label(roleId)
      && (forall n :: n in repos' && n != name ==> n in repos && repos'[n] == repos[n])
    ensures var d, e := Domain(key.email), Display(key.email);
      && d in emails' && e in emails'[d]
      && emails'[d][e] == (if d in emails && e in emails[d] then emails[d][e] else []) + [EntryOf((key, roleId))]
      && (forall d' :: d' in emails' && d' != d ==> d' in emails && emails'[d'] == emails[d'])
  {
    repos' := AddRepoEntry(repos, key, roleId);
    emails' := AddEmailEntry(emails, key, roleId);
    AddEffect(repos, emails, (key, roleId));
  }

  /** The `repos` half of the loop body: create the repository's record if missing, then set the label. */
  method AddRepoEntry(repos: RepoView, key: Key, roleId: Role) returns (repos': RepoView)
    ensures repos' == AddRepo(repos, (key, roleId))
  {
    repos' := repos;
    if key.repo.name !in repos' {
      repos' := repos'[key.repo.name := RepoReport(key.repo.cloneUrl, map[])];
    }
    var rr := repos'[key.repo.name];
    repos' := repos'[key.repo.name := rr.(emails := rr.emails[Display(key.email) := Label(roleId)])];
  }

  /** The `emails` half of the loop body: create the domain and address lists if missing, then append. */
  method AddEmailEntry(emails: EmailView, key: Key, roleId: Role) returns (emails': EmailView)
    ensures emails' == AddEmail(emails, (key, roleId))
  {
    var email, domain := Display(key.email), Domain(key.email);
    emails' := emails;
    if domain !in emails' {
      emails' := emails'[domain := map[]];
    }
    if email !in emails'[domain] {
      emails' := emails'[domain := emails'[domain][email := []]];
    }
    var entry := Entry(key.repo.name, key.repo.cloneUrl, Label(roleId));
    var byDomain := emails'[domain];
    ghost var before := if domain in emails then emails[domain] else map[];
    ghost var list := if email in before then before[email] else [];
    assert byDomain[email] == list;
    assert byDomain[email := list + [entry]] == before[email := list + [entry]];
    assert emails'[domain := byDomain[email := list + [entry]]] == emails[domain := before[email := list + [entry]]];
    emails' := emails'[domain := byDomain[email := byDomain[email] + [entry]]];
  }

  /** What one grouped entry does to the two maps, and what it leaves alone. */
  lemma AddEffect(repos: RepoView, emails: EmailView, it: Item)
    ensures var r, name, e := AddRepo(repos, it), it.0.repo.name, Display(it.0.email);
      && name in r
      && r[name].url == (if name in repos then repos[name].url else it.0.repo.cloneUrl)
      && e in r[name].emails && r[name].emails[e] == Label(it.1)
      && (forall n :: n in r && n != name ==> n in repos && r[n] == repos[n])
    ensures var m, d, e := AddEmail(emails, it), Domain(it.0.email), Display(it.0.email);
      && d in m && e in m[d]
      && m[d][e] == (if d in emails && e in emails[d] then emails[d][e] else []) + [EntryOf(it)]
      && (forall d' :: d' in m && d' != d ==> d' in emails && m[d'] == emails[d'])
  {
  }

  lemma FoldsSnoc(items: seq<Item>, it: Item)
    ensures ReposOf(items + [it]) == AddRepo(ReposOf(items), it)
    ensures EmailsOf(items + [it]) == AddEmail(EmailsOf(items), it)
  {
    assert (items + [it])[..|items|] == items;
  }

  // ---------------------------------------------------------------------------
  // The domain view

  /** The item is filed under domain `d` and address `e`. */
  predicate FiledAt(it: Item, d: string, e: string) {
    Domain(it.0.email) == d && Display(it.0.email) == e
  }

  /** The entries of the items filed under `d` and `e`, in visiting order. */
  function EntriesFor(items: seq<Item>, d: string, e: string): seq<Entry> {
    Map(EntryOf, Filter((it: Item) => FiledAt(it, d, e), items))
  }

  lemma EntriesForSnoc(items: seq<Item>, it: Item, d: string, e: string)
    ensures EntriesFor(items + [it], d, e) == EntriesFor(items, d, e) + (if FiledAt(it, d, e) then [EntryOf(it)] else [])
  {
    var p := (it: Item) => FiledAt(it, d, e);
    FilterAppend(p, items, [it]);
    assert Filter(p, [it]) == if p(it) then [it] else [] by {
      FilterCons(p, it, []);
    }
    MapAppend(EntryOf, Filter(p, items), Filter(p, [it]));
  }

  lemma AddEmailAt(m: EmailView, it: Item, d: string, e: string)
    ensures d in AddEmail(m, it) <==> d in m || Domain(it.0.email) == d
    ensures (d in AddEmail(m, it) && e in AddEmail(m, it)[d]) <==> (d in m && e in m[d]) || FiledAt(it, d, e)
    ensures d in AddEmail(m, it) && e in AddEmail(m, it)[d] ==>
      AddEmail(m, it)[d][e] == (if d in m && e in m[d] then m[d][e] else []) + (if FiledAt(it, d, e) then [EntryOf(it)] else [])
  {
  }

  /**
   * `emails[d][e]` exists exactly when some visited key is filed under `d`
   * and `e`, and then it lists one entry per such key, in visiting order.
   */
  lemma {:induction false} EmailsAt(items: seq<Item>, d: string, e: string)
    ensures d in EmailsOf(items) && e in EmailsOf(items)[d] <==> |EntriesFor(items, d, e)| > 0
    ensures d in EmailsOf(items) && e in EmailsOf(items)[d] ==> EmailsOf(items)[d][e] == EntriesFor(items, d, e)
  {
    if |items| > 0 {
      var init, it := items[..|items| - 1], items[|items| - 1];
      assert items == init + [it];
      EmailsAt(init, d, e);
      EntriesForSnoc(init, it, d, e);
      AddEmailAt(EmailsOf(init), it, d, e);
    }
  }

  /** Some visited key has domain `d`. */
  predicate HasDomain(items: seq<Item>, d: string) {
    exists i :: 0 <= i < |items| && Domain(items[i].0.email) == d
  }

  lemma HasDomainSnoc(items: seq<Item>, it: Item, d: string)
    ensures HasDomain(items + [it], d) <==> HasDomain(items, d) || Domain(it.0.email) == d
  {
    var s := items + [it];
    if HasDomain(items, d) {
      var i :| 0 <= i < |items| && Domain(items[i].0.email) == d;
      assert s[i] == items[i];
    }
    if HasDomain(s, d) {
      var i :| 0 <= i < |s| && Domain(s[i].0.email) == d;
      if i < |items| {
        assert items[i] == s[i];
      }
    }
    assert s[|items|] == it;
  }

  /** A domain appears in the report exactly when some visited key has that domain. */
  lemma {:induction false} EmailDomains(items: seq<Item>, d: string)
    ensures d in EmailsOf(items) <==> HasDomain(items, d)
  {
    if |items| > 0 {
      var init, it := items[..|items| - 1], items[|items| - 1];
      assert items == init + [it];
      EmailDomains(init, d);
      AddEmailAt(EmailsOf(init), it, d, "");
      HasDomainSnoc(init, it, d);
    }
  }

  /** Two duplicate-free sequences with the same elements are permutations of each other. */
  lemma {:induction false} SameElementsPermutation<T>(a: seq<T>, b: seq<T>)
    requires Distinct(a) && Distinct(b)
    requires forall x :: x in a <==> x in b
    ensures multiset(a) == multiset(b)
    decreases |a|
  {
    if |a| == 0 {
      NothingIsEmpty(b);
    } else {
      var x, rest := a[0], a[1..];
      assert a == [x] + rest;
      assert x in b;
      var b1, b2 := SplitAt(b, x);
      RemoveDistinct(b, b1, x, b2);
      RemoveDistinct(a, [], x, rest);
      SameElementsPermutation(rest, b1 + b2);
    }
  }

  /** Any two iterations of the same map visit the same items. */
  lemma IterationsPermute(o1: seq<Item>, o2: seq<Item>, grouped: map<Key, Role>)
    requires IterationOf(o1, grouped) && IterationOf(o2, grouped)
    ensures multiset(o1) == multiset(o2)
  {
    forall x
      ensures x in o1 <==> x in o2
    {
      if x in o1 {
        var i :| 0 <= i < |o1| && o1[i] == x;
        var j :| 0 <= j < |o2| && o2[j].0 == x.0;
        assert o2[j] == x;
      }
      if x in o2 {
        var i :| 0 <= i < |o2| && o2[i] == x;
        var j :| 0 <= j < |o1| && o1[j].0 == x.0;
        assert o1[j] == x;
      }
    }
    assert Distinct(o1) && Distinct(o2);
    SameElementsPermutation(o1, o2);
  }

  /** Whichever order the walk takes, the report has the same domains. */
  lemma DomainsOrderFree(o1: seq<Item>, o2: seq<Item>, grouped: map<Key, Role>, d: string)
    requires IterationOf(o1, grouped) && IterationOf(o2, grouped)
    ensures d in EmailsOf(o1) <==> d in EmailsOf(o2)
  {
    IterationsPermute(o1, o2, grouped);
    EmailDomains(o1, d);
    EmailDomains(o2, d);
    if HasDomain(o1, d) {
      var i :| 0 <= i < |o1| && Domain(o1[i].0.email) == d;
      assert o1[i] in multiset(o2);
      var j :| 0 <= j < |o2| && o2[j] == o1[i];
    }
    if HasDomain(o2, d) {
      var i :| 0 <= i < |o2| && Domain(o2[i].0.email) == d;
      assert o2[i] in multiset(o1);
      var j :| 0 <= j < |o1| && o1[j] == o2[i];
    }
  }

  /**
   * The domain view does not depend on the map order: whichever order the
   * walk takes, the same addresses appear under each domain, and each
   * address's list holds the same entries, possibly in a different order.
   */
  lemma EmailsOrderFree(o1: seq<Item>, o2: seq<Item>, grouped: map<Key, Role>, d: string, e: string)
    requires IterationOf(o1, grouped) && IterationOf(o2, grouped)
    ensures d in EmailsOf(o1) && e in EmailsOf(o1)[d] <==> d in EmailsOf(o2) && e in EmailsOf(o2)[d]
    ensures d in EmailsOf(o1) && e in EmailsOf(o1)[d] ==> multiset(EmailsOf(o1)[d][e]) == multiset(EmailsOf(o2)[d][e])
  {
    IterationsPermute(o1, o2, grouped);
    var p := (it: Item) => FiledAt(it, d, e);
    FilterPermutation(p, o1, o2);
    MapPermutation(EntryOf, Filter(p, o1), Filter(p, o2));
    var l1, l2 := EntriesFor(o1, d, e), EntriesFor(o2, d, e);
    assert |l1| == |l2| by {
      assert |multiset(l1)| == |l1| && |multiset(l2)| == |l2|;
    }
    EmailsAt(o1, d, e);
    EmailsAt(o2, d, e);
  }

  // ---------------------------------------------------------------------------
  // The repository view

  /** The item files address `e` under repository name `name`. */
  predicate InRepoAs(it: Item, name: string, e: string) {
    it.0.repo.name == name && Display(it.0.email) == e
  }

  /** Some visited key belongs to a repository called `name`. */
  predicate HasName(items: seq<Item>, name: string) {
    exists i :: 0 <= i < |items| && items[i].0.repo.name == name
  }

  /** Some visited key files address `e` under repository name `name`. */
  predicate HasEntry(items: seq<Item>, name: string, e: string) {
    exists i :: 0 <= i < |items| && InRepoAs(items[i], name, e)
  }

  lemma AddRepoAt(r: RepoView, it: Item, name: string, e: string)
    ensures name in AddRepo(r, it) <==> name in r || it.0.repo.name == name
    ensures name in AddRepo(r, it) ==> AddRepo(r, it)[name].url == if name in r then r[name].url else it.0.repo.cloneUrl
    ensures name in AddRepo(r, it) ==>
      (e in AddRepo(r, it)[name].emails <==> (name in r && e in r[name].emails) || InRepoAs(it, name, e))
    ensures name in AddRepo(r, it) && e in AddRepo(r, it)[name].emails ==>
      AddRepo(r, it)[name].emails[e] == if InRepoAs(it, name, e) then Label(it.1) else r[name].emails[e]
  {
  }

  lemma HasSnoc(items: seq<Item>, it: Item, name: string, e: string)
    ensures HasName(items + [it], name) <==> HasName(items, name) || it.0.repo.name == name
    ensures HasEntry(items + [it], name, e) <==> HasEntry(items, name, e) || InRepoAs(it, name, e)
  {
    var s := items + [it];
    assert s[|items|] == it;
    if HasName(items, name) {
      var i :| 0 <= i < |items| && items[i].0.repo.name == name;
      assert s[i] == items[i];
    }
    if HasEntry(items, name, e) {
      var i :| 0 <= i < |items| && InRepoAs(items[i], name, e);
      assert s[i] == items[i];
    }
    if HasName(s, name) {
      var i :| 0 <= i < |s| && s[i].0.repo.name == name;
      if i < |items| {
        assert items[i] == s[i];
      }
    }
    if HasEntry(s, name, e) {
      var i :| 0 <= i < |s| && InRepoAs(s[i], name, e);
      if i < |items| {
        assert items[i] == s[i];
      }
    }
  }

  lemma EntryHasName(items: seq<Item>, name: string, e: string)
    ensures HasEntry(items, name, e) ==> HasName(items, name)
  {
    if HasEntry(items, name, e) {
      var i :| 0 <= i < |items| && InRepoAs(items[i], name, e);
    }
  }

  /**
   * A repository name appears in the report exactly when some visited key
   * belongs to a repository of that name, and under it exactly the
   * addresses filed with that name.
   */
  lemma {:induction false} ReposEntries(items: seq<Item>, name: string, e: string)
    ensures name in ReposOf(items) <==> HasName(items, name)
    ensures name in ReposOf(items) ==> (e in ReposOf(items)[name].emails <==> HasEntry(items, name, e))
  {
    if |items| > 0 {
      var init, it := items[..|items| - 1], items[|items| - 1];
      assert items == init + [it];
      ReposEntries(init, name, e);
      AddRepoAt(ReposOf(init), it, name, e);
      HasSnoc(init, it, name, e);
      EntryHasName(init, name, e);
    }
  }

  /** The URL reported for a repository name is the clone URL of the first visited key with that name. */
  lemma {:induction false} ReposUrl(items: seq<Item>, name: string) returns (i: nat)
    requires name in ReposOf(items)
    ensures i < |items| && items[i].0.repo.name == name
    ensures forall j :: 0 <= j < i ==> items[j].0.repo.name != name
    ensures ReposOf(items)[name].url == items[i].0.repo.cloneUrl
  {
    var init, it := items[..|items| - 1], items[|items| - 1];
    assert items == init + [it];
    AddRepoAt(ReposOf(init), it, name, "");
    if name in ReposOf(init) {
      i := ReposUrl(init, name);
      assert items[i] == init[i];
      assert forall j :: 0 <= j < i ==> items[j] == init[j];
    } else {
      i := |init|;
      ReposEntries(init, name, "");
      assert forall j :: 0 <= j < i ==> items[j] == init[j];
    }
  }

  /** The label reported for an address under a repository name is the role of the last visited key filed there. */
  lemma {:induction false} ReposLabel(items: seq<Item>, name: string, e: string) returns (i: nat)
    requires name in ReposOf(items) && e in ReposOf(items)[name].emails
    ensures i < |items| && InRepoAs(items[i], name, e)
    ensures forall j :: i < j < |items| ==> !InRepoAs(items[j], name, e)
    ensures ReposOf(items)[name].emails[e] == Label(items[i].1)
  {
    var init, it := items[..|items| - 1], items[|items| - 1];
    assert items == init + [it];
    AddRepoAt(ReposOf(init), it, name, e);
    if InRepoAs(it, name, e) {
      i := |init|;
    } else {
      i := ReposLabel(init, name, e);
      assert items[i] == init[i];
      assert forall j :: i < j < |init| ==> items[j] == init[j];
    }
  }

  /** Keys with the same repository name have the same clone URL. */
  ghost predicate NamesAgree(grouped: map<Key, Role>) {
    forall k1, k2 :: k1 in grouped && k2 in grouped && k1.repo.name == k2.repo.name ==> k1.repo.cloneUrl == k2.repo.cloneUrl
  }

  /** Distinct keys with the same repository name show different addresses. */
  ghost predicate DisplaysDistinct(grouped: map<Key, Role>) {
    forall k1, k2 :: k1 in grouped && k2 in grouped && k1 != k2 && k1.repo.name == k2.repo.name ==>
      Display(k1.email) != Display(k2.email)
  }

  /** Two iterations of the same map visit the same items. */
  lemma IterationsSameItems(o1: seq<Item>, o2: seq<Item>, grouped: map<Key, Role>)
    requires IterationOf(o1, grouped) && IterationOf(o2, grouped)
    ensures forall x :: x in o1 <==> x in o2
  {
    IterationsPermute(o1, o2, grouped);
    forall x
      ensures x in o1 <==> x in o2
    {
      assert x in o1 <==> x in multiset(o1);
      assert x in o2 <==> x in multiset(o2);
    }
  }

  /** Sequences with the same items agree on which names and addresses occur. */
  lemma HasSame(o1: seq<Item>, o2: seq<Item>, name: string, e: string)
    requires forall x :: x in o1 <==> x in o2
    ensures HasName(o1, name) <==> HasName(o2, name)
    ensures HasEntry(o1, name, e) <==> HasEntry(o2, name, e)
  {
    if HasName(o1, name) {
      var i :| 0 <= i < |o1| && o1[i].0.repo.name == name;
      assert o1[i] in o2;
    }
    if HasName(o2, name) {
      var i :| 0 <= i < |o2| && o2[i].0.repo.name == name;
      assert o2[i] in o1;
    }
    if HasEntry(o1, name, e) {
      var i :| 0 <= i < |o1| && InRepoAs(o1[i], name, e);
      assert o1[i] in o2;
    }
    if HasEntry(o2, name, e) {
      var i :| 0 <= i < |o2| && InRepoAs(o2[i], name, e);
      assert o2[i] in o1;
    }
  }

  /** Under the two conditions above, the label of one address under one repository does not depend on the map order. */
  lemma LabelOrderFree(o1: seq<Item>, o2: seq<Item>, grouped: map<Key, Role>, name: string, e: string)
    requires IterationOf(o1, grouped) && IterationOf(o2, grouped)
    requires DisplaysDistinct(grouped)
    requires name in ReposOf(o1) && e in ReposOf(o1)[name].emails
    requires name in ReposOf(o2) && e in ReposOf(o2)[name].emails
    ensures ReposOf(o1)[name].emails[e] == ReposOf(o2)[name].emails[e]
  {
    var j1 := ReposLabel(o1, name, e);
    var j2 := ReposLabel(o2, name, e);
    var k1, k2 := o1[j1].0, o2[j2].0;
    assert k1 in grouped && k2 in grouped;
    assert k1 == k2;
  }

  /** Under `NamesAgree`, the URL reported for a repository name does not depend on the map order. */
  lemma UrlOrderFree(o1: seq<Item>, o2: seq<Item>, grouped: map<Key, Role>, name: string)
    requires IterationOf(o1, grouped) && IterationOf(o2, grouped)
    requires NamesAgree(grouped)
    requires name in ReposOf(o1) && name in ReposOf(o2)
    ensures ReposOf(o1)[name].url == ReposOf(o2)[name].url
  {
    var i1 := ReposUrl(o1, name);
    var i2 := ReposUrl(o2, name);
    assert o1[i1].0 in grouped && o2[i2].0 in grouped;
  }

  /** Under `DisplaysDistinct`, the addresses and labels reported under a repository name do not depend on the map order. */
  lemma RepoEmailsOrderFree(o1: seq<Item>, o2: seq<Item>, grouped: map<Key, Role>, name: string)
    requires IterationOf(o1, grouped) && IterationOf(o2, grouped)
    requires DisplaysDistinct(grouped)
    requires name in ReposOf(o1) && name in ReposOf(o2)
    ensures ReposOf(o1)[name].emails == ReposOf(o2)[name].emails
  {
    IterationsSameItems(o1, o2, grouped);
    var m1, m2 := ReposOf(o1)[name].emails, ReposOf(o2)[name].emails;
    forall e
      ensures e in m1 <==> e in m2
    {
      HasSame(o1, o2, name, e);
      ReposEntries(o1, name, e);
      ReposEntries(o2, name, e);
    }
    forall e | e in m1
      ensures m1[e] == m2[e]
    {
      LabelOrderFree(o1, o2, grouped, name, e);
    }
  }

  /**
   * The repository view does not depend on the map order when keys with the
   * same repository name agree on the clone URL and show distinct addresses.
   * Otherwise the first key visited fixes the URL and the last one the label.
   */
  lemma ReposOrderFree(o1: seq<Item>, o2: seq<Item>, grouped: map<Key, Role>)
    requires IterationOf(o1, grouped) && IterationOf(o2, grouped)
    requires NamesAgree(grouped) && DisplaysDistinct(grouped)
    ensures ReposOf(o1) == ReposOf(o2)
  {
    IterationsSameItems(o1, o2, grouped);
    forall name
      ensures name in ReposOf(o1) <==> name in ReposOf(o2)
    {
      HasSame(o1, o2, name, "");
      ReposEntries(o1, name, "");
      ReposEntries(o2, name, "");
    }
    forall name | name in ReposOf(o1)
      ensures ReposOf(o1)[name] == ReposOf(o2)[name]
    {
      UrlOrderFree(o1, o2, grouped, name);
      RepoEmailsOrderFree(o1, o2, grouped, name);
    }
  }
}
