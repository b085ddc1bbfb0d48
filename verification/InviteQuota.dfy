/** Migration 0021: one quota account for each target of a grant and each source of an invite. */
module InviteQuota {
  import opened Wrappers
  import opened Sequences
  import opened Ordering
  import opened Decimals

  datatype Target = Target(kind: string, id: string)

  datatype Grant = Grant(target: Target, quota: Option<int>, unlimited: bool, revoked: bool)

  datatype Invite = Invite(sourceKind: string, sourceId: Option<string>, total: Option<int>, revoked: bool)

  datatype Account = Account(id: string, target: Target, remaining: int, unlimited: bool)

  const PREFIX := "invite-quota-"

  /** `quota or 0` */
  function OrZero(quota: Option<int>): int {
    if quota.Some? then quota.value else 0
  }

  /** The invite is selected by the second query, for this target. */
  predicate Draws(i: Invite, t: Target) {
    i.sourceKind in {"USER", "GROUP"} && !i.revoked && i.sourceKind == t.kind && i.sourceId == Some(t.id)
  }

  function Granted(g: Grant, t: Target): int {
    if !g.revoked && !g.unlimited && g.target == t then OrZero(g.quota) else 0
  }

  function Consumed(i: Invite, t: Target): int {
    if Draws(i, t) then OrZero(i.total) else 0
  }

  function Sum<T>(f: T -> int, q: seq<T>): int {
    if q == [] then 0 else Sum(f, q[..|q| - 1]) + f(q[|q| - 1])
  }

  function TotalGranted(grants: seq<Grant>, t: Target): int {
    Sum(g => Granted(g, t), grants)
  }

  function TotalConsumed(invites: seq<Invite>, t: Target): int {
    Sum(i => Consumed(i, t), invites)
  }

  ghost predicate IsUnlimited(grants: seq<Grant>, t: Target) {
    exists g :: g in grants && !g.revoked && g.unlimited && g.target == t
  }

  ghost predicate HasFiniteGrant(grants: seq<Grant>, t: Target) {
    exists g :: g in grants && !g.revoked && !g.unlimited && g.target == t
  }

  ghost predicate IsDrawnOn(invites: seq<Invite>, t: Target) {
    exists i :: i in invites && Draws(i, t)
  }

  ghost predicate NeedsAccount(grants: seq<Grant>, invites: seq<Invite>, t: Target) {
    IsUnlimited(grants, t) || HasFiniteGrant(grants, t) || IsDrawnOn(invites, t)
  }

  predicate TargetLe(a: Target, b: Target) {
    LexLe(a.kind, b.kind) && (a.kind == b.kind ==> LexLe(a.id, b.id))
  }

  function TargetsOf(accounts: seq<Account>): (r: seq<Target>)
    ensures |r| == |accounts| && forall k | 0 <= k < |r| :: r[k] == accounts[k].target
  {
    seq(|accounts|, k requires 0 <= k < |accounts| => accounts[k].target)
  }

  /** `granted - consumed`, which is negative for a target that invites have overdrawn. */
  function Balance(grants: seq<Grant>, invites: seq<Invite>, t: Target): int {
    TotalGranted(grants, t) - TotalConsumed(invites, t)
  }

  function AtLeastZero(n: int): int {
    if n < 0 then 0 else n
  }

  ghost predicate IsAccount(grants: seq<Grant>, invites: seq<Invite>, index: nat, a: Account) {
    && a.id == PREFIX + Decimal(index + 1)
    && a.remaining == AtLeastZero(Balance(grants, invites, a.target))
    && (a.unlimited <==> IsUnlimited(grants, a.target))
  }

  /** The accounts are those of the targets that need one, once each, in the order of the targets. */
  ghost predicate AreAccounts(grants: seq<Grant>, invites: seq<Invite>, accounts: seq<Account>) {
    && Sorted(TargetLe, TargetsOf(accounts)) && NoRepeats(TargetsOf(accounts))
    && (forall t :: t in TargetsOf(accounts) <==> NeedsAccount(grants, invites, t))
    && (forall k | 0 <= k < |accounts| :: IsAccount(grants, invites, k, accounts[k]))
  }

  /** `d[t]` of a `defaultdict(int)` */
  function At(totals: map<Target, int>, t: Target): int {
    if t in totals then totals[t] else 0
  }

  /** The values of one inserted account. */
  function AccountOf(t: Target, index: nat, granted: map<Target, int>, unlimited: set<Target>, consumed: map<Target, int>): Account {
    Account(PREFIX + Decimal(index + 1), t, AtLeastZero(At(granted, t) - At(consumed, t)), t in unlimited)
  }

  lemma SumOfAppend<T>(f: T -> int, q: seq<T>, n: nat)
    requires n < |q|
    ensures Sum(f, q[..n + 1]) == Sum(f, q[..n]) + f(q[n])
  {
    assert q[..n + 1][..n] == q[..n];
  }

  lemma OneMoreGrant(grants: seq<Grant>, n: nat)
    requires n < |grants|
    ensures forall t :: TotalGranted(grants[..n + 1], t) == TotalGranted(grants[..n], t) + Granted(grants[n], t)
    ensures forall g :: g in grants[..n + 1] <==> g in grants[..n] || g == grants[n]
  {
    forall t ensures TotalGranted(grants[..n + 1], t) == TotalGranted(grants[..n], t) + Granted(grants[n], t) {
      SumOfAppend(g => Granted(g, t), grants, n);
    }
  }

  lemma OneMoreInvite(invites: seq<Invite>, n: nat)
    requires n < |invites|
    ensures forall t :: TotalConsumed(invites[..n + 1], t) == TotalConsumed(invites[..n], t) + Consumed(invites[n], t)
    ensures forall t :: IsDrawnOn(invites[..n + 1], t) <==> IsDrawnOn(invites[..n], t) || Draws(invites[n], t)
  {
    forall t ensures TotalConsumed(invites[..n + 1], t) == TotalConsumed(invites[..n], t) + Consumed(invites[n], t)
      ensures IsDrawnOn(invites[..n + 1], t) <==> IsDrawnOn(invites[..n], t) || Draws(invites[n], t)
    {
      SumOfAppend(i => Consumed(i, t), invites, n);
      assert forall i :: i in invites[..n + 1] <==> i in invites[..n] || i == invites[n];
    }
  }

  method SumGrants(grants: seq<Grant>) returns (totals: map<Target, int>, unlimited: set<Target>)
    ensures forall t :: t in totals <==> HasFiniteGrant(grants, t)
    ensures forall t :: t in unlimited <==> IsUnlimited(grants, t)
    ensures forall t :: At(totals, t) == TotalGranted(grants, t)
  {
    totals, unlimited := map[], {};
    for n := 0 to |grants|
      invariant forall t :: t in totals <==> HasFiniteGrant(grants[..n], t)
      invariant forall t :: t in unlimited <==> IsUnlimited(grants[..n], t)
      invariant forall t :: At(totals, t) == TotalGranted(grants[..n], t)
    {
      var row := grants[n];
      OneMoreGrant(grants, n);
      if !row.revoked {
        if row.unlimited {
          unlimited := unlimited + {row.target};
        } else {
          totals := totals[row.target := At(totals, row.target) + OrZero(row.quota)];
        }
      }
    }
    assert grants[..|grants|] == grants;
  }

  method SumInvites(invites: seq<Invite>) returns (totals: map<Target, int>)
    ensures forall t :: t in totals <==> IsDrawnOn(invites, t)
    ensures forall t :: At(totals, t) == TotalConsumed(invites, t)
  {
    totals := map[];
    for n := 0 to |invites|
      invariant forall t :: t in totals <==> IsDrawnOn(invites[..n], t)
      invariant forall t :: At(totals, t) == TotalConsumed(invites[..n], t)
    {
      var row := invites[n];
      OneMoreInvite(invites, n);
      if row.sourceKind in {"USER", "GROUP"} && row.sourceId.Some? && !row.revoked {
        var key := Target(row.sourceKind, row.sourceId.value);
        totals := totals[key := At(totals, key) + OrZero(row.total)];
      }
    }
    assert invites[..|invites|] == invites;
  }

  /** `sorted(keys)` */
  method SortedKeys(keys: set<Target>) returns (sorted: seq<Target>)
    ensures IsListing(TargetLe, keys, sorted)
  {
    var todo := keys;
    sorted := [];
    while todo != {}
      invariant NoRepeats(sorted) && Elements(sorted) + todo == keys && Elements(sorted) !! todo
    {
      var t :| t in todo;
      assert t !in Elements(sorted);
      assert Elements(sorted + [t]) == Elements(sorted) + {t};
      todo := todo - {t};
      sorted := sorted + [t];
    }
    TargetsAreOrdered();
    SortLists(TargetLe, sorted);
    sorted := Sort(TargetLe, sorted);
  }

  /** The loop that inserts the accounts. */
  method InsertAccounts(keys: seq<Target>, granted: map<Target, int>, unlimited: set<Target>, consumed: map<Target, int>)
    returns (accounts: seq<Account>)
    ensures TargetsOf(accounts) == keys
    ensures forall k | 0 <= k < |keys| :: accounts[k] == AccountOf(keys[k], k, granted, unlimited, consumed)
  {
    accounts := [];
    for n := 0 to |keys|
      invariant TargetsOf(accounts) == keys[..n]
      invariant forall k | 0 <= k < n :: accounts[k] == AccountOf(keys[k], k, granted, unlimited, consumed)
    {
      accounts := accounts + [AccountOf(keys[n], n, granted, unlimited, consumed)];
    }
  }

  /** `upgrade` */
  method Upgrade(grants: seq<Grant>, invites: seq<Invite>) returns (accounts: seq<Account>)
    ensures AreAccounts(grants, invites, accounts)
  {
    var granted, unlimited := SumGrants(grants);
    var consumed := SumInvites(invites);
    var keys := SortedKeys(granted.Keys + unlimited + consumed.Keys);
    accounts := InsertAccounts(keys, granted, unlimited, consumed);
    forall t ensures t in keys <==> NeedsAccount(grants, invites, t) {
      assert t in keys <==> t in Elements(keys);
    }
    forall k | 0 <= k < |accounts| ensures IsAccount(grants, invites, k, accounts[k]) {
      var t := keys[k];
      assert At(granted, t) - At(consumed, t) == Balance(grants, invites, t);
    }
  }

  lemma TargetsAreOrdered()
    ensures Preorder(TargetLe) && forall a, b :: TargetLe(a, b) && TargetLe(b, a) ==> a == b
  {
    forall a, b ensures TargetLe(a, b) || TargetLe(b, a) ensures TargetLe(a, b) && TargetLe(b, a) ==> a == b {
      LexTotal(a.kind, b.kind);
      LexTotal(a.id, b.id);
    }
    forall a, b, c | TargetLe(a, b) && TargetLe(b, c) ensures TargetLe(a, c) {
      LexTransitive(a.kind, b.kind, c.kind);
      LexTotal(a.kind, b.kind);
      if a.kind == b.kind == c.kind {
        LexTransitive(a.id, b.id, c.id);
      }
    }
  }

  // ----- What one row does -----

  lemma NothingWithoutRows(t: Target)
    ensures Balance([], [], t) == 0 && !NeedsAccount([], [], t) && !IsUnlimited([], t)
  {
  }

  lemma LastOfAppended<T>(q: seq<T>, x: T)
    ensures (q + [x])[..|q + [x]| - 1] == q && (q + [x])[|q + [x]| - 1] == x
    ensures forall y :: y in q + [x] <==> y in q || y == x
  {
  }

  /** A finite grant adds its quota to its target, and an unlimited one makes it unlimited; both give it an account, a
      revoked one does nothing, and no grant touches another target. */
  lemma OneGrantCounts(grants: seq<Grant>, invites: seq<Invite>, g: Grant, t: Target)
    ensures var counts, more := !g.revoked && g.target == t, grants + [g];
      && Balance(more, invites, t) - Balance(grants, invites, t) == (if counts && !g.unlimited && g.quota.Some? then g.quota.value else 0)
      && (IsUnlimited(more, t) <==> IsUnlimited(grants, t) || (counts && g.unlimited))
      && (NeedsAccount(more, invites, t) <==> NeedsAccount(grants, invites, t) || counts)
  {
    LastOfAppended(grants, g);
    assert g in grants + [g];
  }

  /** An invite that a user or a group issued and nobody revoked takes its total from that user or group, and gives it
      an account; any other does nothing. */
  lemma OneInviteDraws(grants: seq<Grant>, invites: seq<Invite>, i: Invite, t: Target)
    ensures var draws, more := !i.revoked && (i.sourceKind == "USER" || i.sourceKind == "GROUP") && i.sourceId.Some?, invites + [i];
      var hit := draws && t == Target(i.sourceKind, i.sourceId.value);
      && Balance(grants, invites, t) - Balance(grants, more, t) == (if hit && i.total.Some? then i.total.value else 0)
      && (NeedsAccount(grants, more, t) <==> NeedsAccount(grants, invites, t) || hit)
  {
    LastOfAppended(invites, i);
    assert i in invites + [i];
  }

  /** The accounts are ordered by the kind of target and then by its id, both character by character. */
  lemma AccountsInTargetOrder(grants: seq<Grant>, invites: seq<Invite>, accounts: seq<Account>, j: nat, k: nat)
    requires AreAccounts(grants, invites, accounts) && j < k < |accounts|
    ensures var a, b := accounts[j].target, accounts[k].target;
      a != b && if a.kind == b.kind then PrefixOrSmaller(a.id, b.id) else PrefixOrSmaller(a.kind, b.kind)
  {
    var ts := TargetsOf(accounts);
    assert TargetLe(ts[j], ts[k]);
    LexIsFirstDifference(ts[j].kind, ts[k].kind);
    LexIsFirstDifference(ts[j].id, ts[k].id);
  }

  /** An account holds its target's balance, and nothing when that is negative. */
  lemma AccountsHoldTheBalance(grants: seq<Grant>, invites: seq<Invite>, accounts: seq<Account>, k: nat)
    requires AreAccounts(grants, invites, accounts) && k < |accounts|
    ensures var a := accounts[k]; var balance := Balance(grants, invites, a.target);
      a.remaining >= 0 && a.remaining >= balance && (a.remaining == 0 || a.remaining == balance)
  {
    assert IsAccount(grants, invites, k, accounts[k]);
  }

  // ----- The order of the rows -----

  lemma {:induction false} SumWithout<T>(f: T -> int, q: seq<T>, k: nat)
    requires k < |q|
    ensures Sum(f, q) == Sum(f, q[..k] + q[k + 1..]) + f(q[k])
  {
    if k == |q| - 1 {
      assert q[..k] + q[k + 1..] == q[..k];
    } else {
      var init := q[..|q| - 1];
      SumWithout(f, init, k);
      var r := q[..k] + q[k + 1..];
      assert r[..|r| - 1] == init[..k] + init[k + 1..];
    }
  }

  lemma MultisetWithout<T>(q: seq<T>, k: nat)
    requires k < |q|
    ensures multiset(q[..k] + q[k + 1..]) == multiset(q) - multiset{q[k]}
  {
    assert q == q[..k] + [q[k]] + q[k + 1..];
  }

  lemma {:induction false} SumOfPermutation<T>(f: T -> int, p: seq<T>, q: seq<T>)
    requires multiset(p) == multiset(q)
    ensures Sum(f, p) == Sum(f, q)
  {
    if p == [] {
      assert |multiset(q)| == 0;
    } else {
      var last := p[|p| - 1];
      MultisetWithout(p, |p| - 1);
      assert last in multiset(q);
      var k :| 0 <= k < |q| && q[k] == last;
      MultisetWithout(q, k);
      SumOfPermutation(f, p[..|p| - 1] + p[|p|..], q[..k] + q[k + 1..]);
      SumWithout(f, p, |p| - 1);
      SumWithout(f, q, k);
    }
  }

  /** The accounts do not depend on the order in which the database returns the rows. */
  lemma RowOrderDoesNotMatter(grants: seq<Grant>, invites: seq<Invite>, accounts: seq<Account>,
                              grants': seq<Grant>, invites': seq<Invite>, accounts': seq<Account>)
    requires AreAccounts(grants, invites, accounts) && AreAccounts(grants', invites', accounts')
    requires multiset(grants) == multiset(grants') && multiset(invites) == multiset(invites')
    ensures accounts == accounts'
  {
    assert forall g :: g in grants <==> g in multiset(grants);
    assert forall g :: g in grants' <==> g in multiset(grants');
    assert forall i :: i in invites <==> i in multiset(invites);
    assert forall i :: i in invites' <==> i in multiset(invites');
    forall t ensures Balance(grants, invites, t) == Balance(grants', invites', t)
      ensures IsUnlimited(grants, t) <==> IsUnlimited(grants', t)
      ensures NeedsAccount(grants, invites, t) <==> NeedsAccount(grants', invites', t)
    {
      SumOfPermutation(g => Granted(g, t), grants, grants');
      SumOfPermutation(i => Consumed(i, t), invites, invites');
    }
    var ts, ts' := TargetsOf(accounts), TargetsOf(accounts');
    TargetsAreOrdered();
    assert Elements(ts) == Elements(ts');
    ListingIsUnique(TargetLe, Elements(ts), ts, ts');
    forall k | 0 <= k < |ts| ensures accounts[k] == accounts'[k] {
      assert IsAccount(grants, invites, k, accounts[k]) && IsAccount(grants', invites', k, accounts'[k]);
      assert ts[k] == ts'[k];
    }
  }

  /** The table's primary key and its unique constraint hold. */
  lemma IdsAndTargetsAreUnique(grants: seq<Grant>, invites: seq<Invite>, accounts: seq<Account>, j: nat, k: nat)
    requires AreAccounts(grants, invites, accounts) && j < |accounts| && k < |accounts|
    requires accounts[j].id == accounts[k].id || accounts[j].target == accounts[k].target
    ensures j == k
  {
    assert IsAccount(grants, invites, j, accounts[j]) && IsAccount(grants, invites, k, accounts[k]);
    if accounts[j].id == accounts[k].id {
      assert accounts[j].id[|PREFIX|..] == Decimal(j + 1) && accounts[k].id[|PREFIX|..] == Decimal(k + 1);
      DecimalIsInjective(j + 1, k + 1);
    }
  }

  // ----- Conservation -----

  /** What the grant adds to its target, whichever that is. */
  function Amount(g: Grant): int {
    Granted(g, g.target)
  }

  function Drawn(i: Invite): int {
    if i.sourceId.Some? then Consumed(i, Target(i.sourceKind, i.sourceId.value)) else 0
  }

  function GrantedOver(grants: seq<Grant>, ts: seq<Target>): int {
    Sum(t => TotalGranted(grants, t), ts)
  }

  function ConsumedOver(invites: seq<Invite>, ts: seq<Target>): int {
    Sum(t => TotalConsumed(invites, t), ts)
  }

  lemma {:induction false} SumOfZeros<T>(f: T -> int, q: seq<T>)
    requires forall k | 0 <= k < |q| :: f(q[k]) == 0
    ensures Sum(f, q) == 0
  {
    if q != [] {
      SumOfZeros(f, q[..|q| - 1]);
    }
  }

  /** A sum whose terms are all zero but one. */
  lemma SumOfOne<T>(f: T -> int, q: seq<T>, k: nat)
    requires k < |q| && forall j | 0 <= j < |q| && j != k :: f(q[j]) == 0
    ensures Sum(f, q) == f(q[k])
  {
    SumWithout(f, q, k);
    SumOfZeros(f, q[..k] + q[k + 1..]);
  }

  lemma {:induction false} SumOfSums<T>(f: T -> int, g: T -> int, h: T -> int, q: seq<T>)
    requires forall x | x in q :: h(x) == f(x) + g(x)
    ensures Sum(h, q) == Sum(f, q) + Sum(g, q)
  {
    if q != [] {
      assert forall x | x in q[..|q| - 1] :: x in q;
      SumOfSums(f, g, h, q[..|q| - 1]);
    }
  }

  /** Every finite grant is counted for exactly one target. */
  lemma {:induction false} GrantsAreCountedOnce(grants: seq<Grant>, ts: seq<Target>)
    requires NoRepeats(ts) && forall t | HasFiniteGrant(grants, t) :: t in ts
    ensures GrantedOver(grants, ts) == Sum(Amount, grants)
  {
    if grants == [] {
      SumOfZeros(t => TotalGranted(grants, t), ts);
    } else {
      var init, g := grants[..|grants| - 1], grants[|grants| - 1];
      forall t | HasFiniteGrant(init, t) ensures t in ts {
        assert HasFiniteGrant(grants, t);
      }
      GrantsAreCountedOnce(init, ts);
      SumOfSums(t => TotalGranted(init, t), t => Granted(g, t), t => TotalGranted(grants, t), ts);
      if g.revoked || g.unlimited {
        SumOfZeros(t => Granted(g, t), ts);
      } else {
        assert HasFiniteGrant(grants, g.target);
        var k :| 0 <= k < |ts| && ts[k] == g.target;
        SumOfOne(t => Granted(g, t), ts, k);
      }
    }
  }

  /** Every selected invite is counted for exactly one source. */
  lemma {:induction false} InvitesAreCountedOnce(invites: seq<Invite>, ts: seq<Target>)
    requires NoRepeats(ts) && forall t | IsDrawnOn(invites, t) :: t in ts
    ensures ConsumedOver(invites, ts) == Sum(Drawn, invites)
  {
    if invites == [] {
      SumOfZeros(t => TotalConsumed(invites, t), ts);
    } else {
      var init, i := invites[..|invites| - 1], invites[|invites| - 1];
      forall t | IsDrawnOn(init, t) ensures t in ts {
        assert IsDrawnOn(invites, t);
      }
      InvitesAreCountedOnce(init, ts);
      SumOfSums(t => TotalConsumed(init, t), t => Consumed(i, t), t => TotalConsumed(invites, t), ts);
      if i.sourceId.None? || !Draws(i, Target(i.sourceKind, i.sourceId.value)) {
        SumOfZeros(t => Consumed(i, t), ts);
      } else {
        var source := Target(i.sourceKind, i.sourceId.value);
        assert IsDrawnOn(invites, source);
        var k :| 0 <= k < |ts| && ts[k] == source;
        SumOfOne(t => Consumed(i, t), ts, k);
      }
    }
  }

  /** What the clamping at zero adds, account by account. */
  lemma {:induction false} ClampingOnlyAdds(grants: seq<Grant>, invites: seq<Invite>, accounts: seq<Account>)
    requires forall a | a in accounts :: a.remaining == AtLeastZero(Balance(grants, invites, a.target))
    ensures var ts := TargetsOf(accounts);
            var balance := GrantedOver(grants, ts) - ConsumedOver(invites, ts);
            && Sum((a: Account) => a.remaining, accounts) >= balance
            && (Sum((a: Account) => a.remaining, accounts) == balance
                <==> forall a | a in accounts :: Balance(grants, invites, a.target) >= 0)
  {
    if accounts != [] {
      var init, last := accounts[..|accounts| - 1], accounts[|accounts| - 1];
      assert accounts == init + [last];
      ClampingOnlyAdds(grants, invites, init);
      assert TargetsOf(accounts)[..|accounts| - 1] == TargetsOf(init);
    }
  }

  /** No quota is lost or made: what remains in all is what was granted less what was drawn, if and only
      if no target is overdrawn. */
  lemma QuotaIsConservedIffNobodyIsOverdrawn(grants: seq<Grant>, invites: seq<Invite>, accounts: seq<Account>)
    requires AreAccounts(grants, invites, accounts)
    ensures Sum((a: Account) => a.remaining, accounts) == Sum(Amount, grants) - Sum(Drawn, invites)
        <==> forall t :: Balance(grants, invites, t) >= 0
  {
    var ts := TargetsOf(accounts);
    forall t | t !in ts ensures Balance(grants, invites, t) == 0 {
      SumOfZeros(g => Granted(g, t), grants);
      SumOfZeros(i => Consumed(i, t), invites);
    }
    forall a | a in accounts ensures a.remaining == AtLeastZero(Balance(grants, invites, a.target)) {
      var k :| 0 <= k < |accounts| && accounts[k] == a;
      assert IsAccount(grants, invites, k, a);
    }
    forall t | t in ts ensures exists a :: a in accounts && a.target == t {
      var k :| 0 <= k < |ts| && ts[k] == t;
      assert accounts[k] in accounts;
    }
    GrantsAreCountedOnce(grants, ts);
    InvitesAreCountedOnce(invites, ts);
    ClampingOnlyAdds(grants, invites, accounts);
  }
}
