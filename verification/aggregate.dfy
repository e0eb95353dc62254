/**
 * Stage 5, the two folds that drain the identity streams into maps:
 * `emails_dedup` (a presence set of addresses) and `emails_by_repo` (the
 * role mask of each address per repository, accumulated with bitwise OR).
 * Each is a loop that updates a map in place; each loop is proved to compute
 * a left fold, and each fold is characterised by a statement that does not
 * mention order, which is what makes the concurrent delivery harmless.
 */
module Aggregate {
  import opened Roles
  import opened Repos
  import opened Shortlog

  // ---------------------------------------------------------------------------
  // emails_dedup

  /** The dedup map after the addresses `emails`, in arrival order. */
  function DedupFold(emails: seq<string>): map<string, nat> {
    if |emails| == 0 then map[]
    else
      var m := DedupFold(emails[..|emails| - 1]);
      var e := emails[|emails| - 1];
      if e in m then m else m[e := 0]
  }

  /** `emails_dedup`: each address is entered with value 0 unless already present. */
  method EmailsDedup(emails: seq<string>) returns (deduped: map<string, nat>, processed: nat)
    ensures deduped == DedupFold(emails)
    ensures processed == |emails|
  {
    deduped := map[];
    processed := 0;
    for i := 0 to |emails|
      invariant deduped == DedupFold(emails[..i]) && processed == i
    {
      assert emails[..i + 1][..i] == emails[..i];
      var email := emails[i];
      if email !in deduped {
        deduped := deduped[email := 0];
      }
      processed := processed + 1;
    }
    assert emails[..|emails|] == emails;
  }

  /** The dedup map is the presence set of the addresses received: every address seen, each mapped to 0. */
  lemma {:induction false} DedupIsPresence(emails: seq<string>)
    ensures DedupFold(emails) == map e | e in emails :: 0
  {
    if |emails| > 0 {
      var init := emails[..|emails| - 1];
      DedupIsPresence(init);
      assert emails == init + [emails[|emails| - 1]];
    }
  }

  /**
   * Order and duplicates do not matter: two streams with the same addresses,
   * in any order and with any repetition, give the same map.
   */
  lemma DedupOrderFree(a: seq<string>, b: seq<string>)
    requires forall e :: e in a <==> e in b
    ensures DedupFold(a) == DedupFold(b)
  {
    DedupIsPresence(a);
    DedupIsPresence(b);
  }

  // ---------------------------------------------------------------------------
  // emails_by_repo

  /** `EmailGroupByRepoKey`: an address and the repository it was found in. */
  datatype Key = Key(email: string, repo: Repo)

  function KeyOf(c: EmailContext): Key {
    Key(c.email, c.repo)
  }

  /** `m[k] |= role`, where a missing key reads as 0. */
  function Merge(m: map<Key, Role>, k: Key, role: Role): map<Key, Role> {
    m[k := (if k in m then m[k] else 0) | role]
  }

  /** The grouped map after the identities `cs`, in arrival order. */
  function GroupFold(cs: seq<EmailContext>): map<Key, Role> {
    if |cs| == 0 then map[]
    else
      var c := cs[|cs| - 1];
      Merge(GroupFold(cs[..|cs| - 1]), KeyOf(c), c.role)
  }

  lemma GroupFoldSnoc(cs: seq<EmailContext>, i: nat)
    requires i < |cs|
    ensures GroupFold(cs[..i + 1]) == Merge(GroupFold(cs[..i]), KeyOf(cs[i]), cs[i].role)
  {
    assert cs[..i + 1][..i] == cs[..i];
  }

  /** `emails_by_repo`: each identity ORs its role into the entry of its (address, repository) key. */
  method EmailsByRepo(contexts: seq<EmailContext>) returns (grouped: map<Key, Role>, processed: nat)
    ensures grouped == GroupFold(contexts)
    ensures processed == |contexts|
  {
    grouped := map[];
    processed := 0;
    for i := 0 to |contexts|
      invariant grouped == GroupFold(contexts[..i]) && processed == i
    {
      var context := contexts[i];
      var key := Key(context.email, context.repo);
      var current: Role := if key in grouped then grouped[key] else 0;
      GroupFoldSnoc(contexts, i);
      grouped := grouped[key := current | context.role];
      processed := processed + 1;
    }
    assert contexts[..|contexts|] == contexts;
  }

  /** Some identity in `cs` has key `k`. */
  predicate Seen(cs: seq<EmailContext>, k: Key) {
    exists i :: 0 <= i < |cs| && KeyOf(cs[i]) == k
  }

  /** The mask `x` has a bit in common with the mask `b`. */
  predicate Shares(x: Role, b: Role) {
    x & b != 0
  }

  /** Some identity in `cs` has key `k` and a role sharing a bit with `b`. */
  predicate SeenWith(cs: seq<EmailContext>, k: Key, b: Role) {
    exists i :: 0 <= i < |cs| && KeyOf(cs[i]) == k && Shares(cs[i].role, b)
  }

  /**
   * The grouped map holds exactly the keys seen, and each value is the OR
   * of the roles received for its key: it shares a bit with a mask `b`
   * exactly when some identity with that key had a role sharing a bit with `b`.
   */
  lemma {:induction false} GroupIsOr(cs: seq<EmailContext>)
    ensures forall k :: k in GroupFold(cs) <==> Seen(cs, k)
    ensures forall k, b: Role :: k in GroupFold(cs) ==> (Shares(GroupFold(cs)[k], b) <==> SeenWith(cs, k, b))
  {
    if |cs| > 0 {
      var init, c := cs[..|cs| - 1], cs[|cs| - 1];
      assert cs == init + [c];
      GroupIsOr(init);
      var m := GroupFold(init);
      forall k
        ensures k in GroupFold(cs) <==> Seen(cs, k)
      {
        SeenSnoc(init, c, cs, k);
      }
      forall k, b: Role | k in GroupFold(cs)
        ensures Shares(GroupFold(cs)[k], b) <==> SeenWith(cs, k, b)
      {
        SeenWithSnoc(init, c, cs, k, b);
        SeenSnoc(init, c, cs, k);
        GroupStep(m, c, k, b, k in m && Shares(m[k], b), SeenWith(init, k, b));
      }
    }
  }

  /** One step of the fold keeps the OR characterisation for key `k` and mask `b`. */
  lemma GroupStep(m: map<Key, Role>, c: EmailContext, k: Key, b: Role, had: bool, seen: bool)
    requires k in m ==> (had <==> seen)
    requires k !in m ==> !seen && !had
    requires had <==> k in m && Shares(m[k], b)
    ensures var m' := Merge(m, KeyOf(c), c.role);
      k in m' ==> (Shares(m'[k], b) <==> seen || (KeyOf(c) == k && Shares(c.role, b)))
  {
    if k == KeyOf(c) {
      var before: Role := if k in m then m[k] else 0;
      assert (before | c.role) & b == (before & b) | (c.role & b);
      assert Shares(before, b) == had;
    }
  }

  lemma SeenSnoc(init: seq<EmailContext>, c: EmailContext, cs: seq<EmailContext>, k: Key)
    requires cs == init + [c]
    ensures Seen(cs, k) <==> Seen(init, k) || KeyOf(c) == k
  {
    if Seen(init, k) {
      var i :| 0 <= i < |init| && KeyOf(init[i]) == k;
      assert cs[i] == init[i];
    }
    if Seen(cs, k) {
      var i :| 0 <= i < |cs| && KeyOf(cs[i]) == k;
      if i < |init| {
        assert init[i] == cs[i];
      }
    }
    if KeyOf(c) == k {
      assert cs[|init|] == c;
    }
  }

  lemma SeenWithSnoc(init: seq<EmailContext>, c: EmailContext, cs: seq<EmailContext>, k: Key, b: Role)
    requires cs == init + [c]
    ensures SeenWith(cs, k, b) <==> SeenWith(init, k, b) || (KeyOf(c) == k && Shares(c.role, b))
  {
    if SeenWith(init, k, b) {
      var i :| 0 <= i < |init| && KeyOf(init[i]) == k && Shares(init[i].role, b);
      assert cs[i] == init[i];
    }
    if SeenWith(cs, k, b) {
      var i :| 0 <= i < |cs| && KeyOf(cs[i]) == k && Shares(cs[i].role, b);
      if i < |init| {
        assert init[i] == cs[i];
      }
    }
    if KeyOf(c) == k && Shares(c.role, b) {
      assert cs[|init|] == c;
    }
  }

  /** Two masks that share bits with the same masks are equal. */
  lemma SameBits(x: Role, y: Role)
    requires forall b: Role :: Shares(x, b) == Shares(y, b)
    ensures x == y
  {
    assert Shares(x, 1) == Shares(y, 1);
    assert Shares(x, 2) == Shares(y, 2);
    assert Shares(x, 4) == Shares(y, 4);
    assert Shares(x, 8) == Shares(y, 8);
    assert Shares(x, 16) == Shares(y, 16);
    assert Shares(x, 32) == Shares(y, 32);
    assert Shares(x, 64) == Shares(y, 64);
    assert Shares(x, 128) == Shares(y, 128);
  }

  lemma SeenSame(a: seq<EmailContext>, b: seq<EmailContext>, k: Key)
    requires forall c :: c in a <==> c in b
    ensures Seen(a, k) <==> Seen(b, k)
  {
    if Seen(a, k) {
      var i :| 0 <= i < |a| && KeyOf(a[i]) == k;
      assert a[i] in b;
    }
    if Seen(b, k) {
      var i :| 0 <= i < |b| && KeyOf(b[i]) == k;
      assert b[i] in a;
    }
  }

  lemma SeenWithSame(a: seq<EmailContext>, b: seq<EmailContext>, k: Key, m: Role)
    requires forall c :: c in a <==> c in b
    ensures SeenWith(a, k, m) <==> SeenWith(b, k, m)
  {
    if SeenWith(a, k, m) {
      var i :| 0 <= i < |a| && KeyOf(a[i]) == k && Shares(a[i].role, m);
      assert a[i] in b;
    }
    if SeenWith(b, k, m) {
      var i :| 0 <= i < |b| && KeyOf(b[i]) == k && Shares(b[i].role, m);
      assert b[i] in a;
    }
  }

  /**
   * Order and duplicates do not matter: two streams with the same
   * identities, in any order and with any repetition, give the same map.
   */
  lemma GroupOrderFree(a: seq<EmailContext>, b: seq<EmailContext>)
    requires forall c :: c in a <==> c in b
    ensures GroupFold(a) == GroupFold(b)
  {
    GroupIsOr(a);
    GroupIsOr(b);
    forall k
      ensures k in GroupFold(a) <==> k in GroupFold(b)
    {
      SeenSame(a, b, k);
    }
    forall k | k in GroupFold(a)
      ensures GroupFold(a)[k] == GroupFold(b)[k]
    {
      forall m: Role
        ensures Shares(GroupFold(a)[k], m) == Shares(GroupFold(b)[k], m)
      {
        SeenWithSame(a, b, k, m);
      }
      SameBits(GroupFold(a)[k], GroupFold(b)[k]);
    }
  }

  /** Every identity carries the author or the committer role. */
  predicate RolesFromShortlog(cs: seq<EmailContext>) {
    forall i :: 0 <= i < |cs| ==> cs[i].role == Author || cs[i].role == Committer
  }

  /**
   * With roles drawn from author and committer, every grouped value is
   * Author, Committer or Both, and it is Both exactly when the key was seen
   * in both roles.
   */
  lemma GroupRoles(cs: seq<EmailContext>, k: Key)
    requires RolesFromShortlog(cs) && k in GroupFold(cs)
    ensures GroupFold(cs)[k] in {Author, Committer, Both}
    ensures Shares(GroupFold(cs)[k], Author) <==> SeenWith(cs, k, Author)
    ensures Shares(GroupFold(cs)[k], Committer) <==> SeenWith(cs, k, Committer)
    ensures GroupFold(cs)[k] == Both <==> SeenWith(cs, k, Author) && SeenWith(cs, k, Committer)
  {
    GroupIsOr(cs);
    var v := GroupFold(cs)[k];
    assert Seen(cs, k);
    var i :| 0 <= i < |cs| && KeyOf(cs[i]) == k;
    assert Shares(v, cs[i].role) by {
      assert SeenWith(cs, k, cs[i].role);
    }
    assert !Shares(v, 0xFC) by {
      assert !SeenWith(cs, k, 0xFC);
    }
  }
}
