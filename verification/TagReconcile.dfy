/** Reconciling the tags bound to a target with the tags a user picked. */
module TagReconcile {
  import opened Wrappers
  import opened Sequences

  datatype Tag = Tag(actualId: string, isSystem: bool)

  datatype Write = Bind(tag: string) | Unbind(tag: string)

  function SystemIds(tags: seq<Tag>): set<string> {
    set t | t in tags && t.isSystem :: t.actualId
  }

  function KnownIds(tags: seq<Tag>): set<string> {
    set t | t in tags :: t.actualId
  }

  /** `desiredIds`: the picked ids that are not system tags, in order. */
  function Managed(system: set<string>, ids: seq<string>): seq<string> {
    if ids == [] then []
    else
      var rest := Managed(system, ids[..|ids| - 1]);
      if ids[|ids| - 1] in system then rest else rest + [ids[|ids| - 1]]
  }

  lemma {:induction false} ManagedElements(system: set<string>, ids: seq<string>)
    ensures forall t :: t in Managed(system, ids) <==> t in ids && t !in system
    ensures NoRepeats(ids) ==> NoRepeats(Managed(system, ids))
  {
    if ids != [] {
      var init, last := ids[..|ids| - 1], ids[|ids| - 1];
      ManagedElements(system, init);
      assert ids == init + [last];
    }
  }

  /** The bindings the user asked for: system bindings stay, ordinary ones become what was picked. */
  function Target(bound: set<string>, system: set<string>, picked: seq<string>): set<string> {
    bound * system + (Elements(picked) - system)
  }

  ghost predicate ListedAsSystem(tags: seq<Tag>, id: string) {
    exists t :: t in tags && t.actualId == id && t.isSystem
  }

  ghost predicate Listed(tags: seq<Tag>, id: string) {
    exists t :: t in tags && t.actualId == id
  }

  /** Every tag listed as a system tag is bound as before, and every other one if and only if it was picked. */
  ghost predicate FollowsThePicks(tags: seq<Tag>, picked: seq<string>, before: set<string>, after: set<string>) {
    forall id :: id in after <==> if ListedAsSystem(tags, id) then id in before else id in picked
  }

  ghost predicate ShowsListed(tags: seq<Tag>, bound: set<string>, shown: set<string>) {
    forall id :: id in shown <==> id in bound && Listed(tags, id)
  }

  lemma TargetFollowsThePicks(tags: seq<Tag>, picked: seq<string>, bound: set<string>)
    ensures FollowsThePicks(tags, picked, bound, Target(bound, SystemIds(tags), picked))
    ensures ShowsListed(tags, Target(bound, SystemIds(tags), picked), Target(bound, SystemIds(tags), picked) * KnownIds(tags))
  {
    forall id ensures id in SystemIds(tags) <==> ListedAsSystem(tags, id) {
    }
  }

  /** What differs between the ordinary bindings and the ordinary picks. */
  function Difference(bound: set<string>, system: set<string>, picked: seq<string>): set<string> {
    var have, want := bound - system, Elements(picked) - system;
    (have - want) + (want - have)
  }

  /** Reconciling reaches a fixed point: afterwards nothing differs. */
  lemma TargetIsReached(bound: set<string>, system: set<string>, picked: seq<string>)
    ensures Difference(Target(bound, system, picked), system, picked) == {}
    ensures Target(Target(bound, system, picked), system, picked) == Target(bound, system, picked)
    ensures Difference(bound, system, picked) == {} <==> Target(bound, system, picked) == bound
  {
    if Difference(bound, system, picked) == {} {
      assert bound - system == Elements(picked) - system;
    }
    if Target(bound, system, picked) == bound {
      assert bound - system == Elements(picked) - system;
    }
  }

  /** The server's side of one target: which tags are bound, which tags it holds as system tags, and the writes it
      has received. It refuses to unbind a system tag. */
  class Server {
    const system: set<string>
    var bound: set<string>
    var writes: seq<Write>

    constructor (bound: set<string>, system: set<string>)
      ensures this.bound == bound && this.system == system && writes == []
    {
      this.bound, this.system, writes := bound, system, [];
    }

    method Post(tag: string)
      modifies this
      ensures bound == old(bound) + {tag} && writes == old(writes) + [Bind(tag)]
    {
      bound, writes := bound + {tag}, writes + [Bind(tag)];
    }

    method Delete(tag: string) returns (ok: bool)
      modifies this
      ensures ok <==> tag !in system
      ensures bound == (if ok then old(bound) - {tag} else old(bound)) && writes == old(writes) + [Unbind(tag)]
    {
      ok, writes := tag !in system, writes + [Unbind(tag)];
      if ok {
        bound := bound - {tag};
      }
    }
  }

  /** Every write changes an ordinary binding in the direction that was asked for. */
  ghost predicate Purposeful(w: Write, bound: set<string>, system: set<string>, picked: seq<string>) {
    match w
    case Bind(t) => t !in bound && t in picked && t !in system
    case Unbind(t) => t in bound && t !in picked && t !in system
  }

  ghost predicate AllPurposeful(writes: seq<Write>, bound: set<string>, system: set<string>, picked: seq<string>) {
    forall i | 0 <= i < |writes| :: Purposeful(writes[i], bound, system, picked)
  }

  /** Binding every tag of a set takes at least as many writes. */
  lemma {:induction false} BindsCover(writes: seq<Write>, tags: set<string>)
    requires forall t | t in tags :: Bind(t) in writes
    ensures |writes| >= |tags|
  {
    if writes != [] {
      var init, last := writes[..|writes| - 1], writes[|writes| - 1];
      assert writes == init + [last];
      var rest := if last.Bind? then tags - {last.tag} else tags;
      BindsCover(init, rest);
      assert |tags| <= |rest| + 1;
    }
  }

  /** The bind loop: picked tags that were not bound at the start are bound, once per occurrence. */
  method BindMissing(server: Server, desired: seq<string>, existing: set<string>) returns (ghost issued: seq<Write>)
    requires server.bound == existing
    modifies server
    ensures server.bound == existing + Elements(desired)
    ensures server.writes == old(server.writes) + issued && BindsOnly(issued, Elements(desired), existing)
    ensures |issued| >= |Elements(desired) - existing|
    ensures NoRepeats(desired) ==> |issued| == |Elements(desired) - existing|
    ensures Elements(desired) <= existing ==> issued == []
    ensures BindsAll(issued, Elements(desired), existing)
  {
    issued := [];
    ghost var wanted, added, once := Elements(desired), {}, NoRepeats(desired);
    for i := 0 to |desired|
      invariant forall x :: x in added <==> x in desired[..i] && x !in existing
      invariant server.bound == existing + added
      invariant forall x | x in added :: Bind(x) in issued
      invariant server.writes == old(server.writes) + issued && BindsOnly(issued, wanted, existing)
      invariant once ==> |issued| == |added|
      invariant added == {} ==> issued == []
    {
      var t := desired[i];
      OneMoreElement(desired, i);
      if t !in existing {
        server.Post(t);
        issued, added := issued + [Bind(t)], added + {t};
      }
    }
    assert desired[..|desired|] == desired;
    assert added == wanted - existing;
    BindsCover(issued, added);
  }

  /** The unbind loop: every tag of `managed` that was not picked is unbound once, in any order, until the server
      refuses one. */
  method UnbindOthers(server: Server, desired: seq<string>, managed: set<string>) returns (ok: bool, ghost issued: seq<Write>)
    requires managed <= server.bound
    modifies server
    ensures server.writes == old(server.writes) + issued
    ensures Unbinds(ok, issued, managed, Elements(desired), server.system)
    ensures ok ==> server.bound == old(server.bound) - (managed - Elements(desired))
    ensures forall t | t in old(server.bound) && t in server.system :: t in server.bound
  {
    issued, ok := [], true;
    ghost var picked, removed := Elements(desired), {};
    var todo := managed;
    while todo != {} && ok
      invariant todo <= managed && removed !! server.system
      invariant forall x :: x in removed <==> x in managed && x !in todo && x !in desired
      invariant server.bound == old(server.bound) - removed && |issued| == |removed|
      invariant server.writes == old(server.writes) + issued && UnbindsOnly(issued, managed, picked)
      invariant forall w | w in issued :: w.tag in removed
      invariant forall t | t in removed :: Unbind(t) in issued
      decreases |todo|
    {
      var t :| t in todo;
      if t !in desired {
        ok := server.Delete(t);
        issued := issued + [Unbind(t)];
        if !ok {
          assert Unbind(t) in issued;
          return;
        }
        removed := removed + {t};
      }
      todo := todo - {t};
    }
    assert removed == managed - picked;
  }

  /** What the unbind loop issues: only unpicked managed tags, all of them once unless one was refused. */
  ghost predicate Unbinds(ok: bool, issued: seq<Write>, managed: set<string>, picked: set<string>, serverSystem: set<string>) {
    && UnbindsOnly(issued, managed, picked) && (ok <==> Spares(issued, serverSystem))
    && (ok ==> |issued| == |managed - picked| && forall t | t in managed && t !in picked :: Unbind(t) in issued)
  }

  ghost predicate UnbindsOnly(writes: seq<Write>, managed: set<string>, picked: set<string>) {
    forall i | 0 <= i < |writes| :: writes[i].Unbind? && writes[i].tag in managed && writes[i].tag !in picked
  }

  ghost predicate BindsAll(writes: seq<Write>, desired: set<string>, existing: set<string>) {
    forall t | t in desired && t !in existing :: Bind(t) in writes
  }

  ghost predicate BindsOnly(writes: seq<Write>, desired: set<string>, existing: set<string>) {
    forall i | 0 <= i < |writes| :: writes[i].Bind? && writes[i].tag in desired && writes[i].tag !in existing
  }

  /** Every system tag of the server that the caller's listing does not show as one is bound and picked, or neither. */
  ghost predicate SystemTagsAgree(serverSystem: set<string>, bound: set<string>, system: set<string>, picked: seq<string>) {
    forall t | t in serverSystem && t !in system :: t in bound <==> t in picked
  }

  ghost predicate Spares(writes: seq<Write>, serverSystem: set<string>) {
    forall w | w in writes :: w.tag !in serverSystem
  }

  /** `reconcileTargetTags`, once the picked ids are resolved. Nothing is shown when the server refuses a write. */
  method ReconcileTargetTags(server: Server, tags: seq<Tag>, picked: seq<string>)
    returns (shown: Option<set<string>>, ghost issued: seq<Write>)
    modifies server
    ensures server.writes == old(server.writes) + issued
    ensures AllPurposeful(issued, old(server.bound), SystemIds(tags), picked)
    ensures Spares(issued, server.system) <==> SystemTagsAgree(server.system, old(server.bound), SystemIds(tags), picked)
    ensures shown.Some? <==> forall t | t in server.system && t in old(server.bound) && t !in SystemIds(tags) :: t in picked
    ensures shown.Some? ==> server.bound == Target(old(server.bound), SystemIds(tags), picked)
    ensures shown.Some? ==> shown.value == server.bound * KnownIds(tags)
    ensures shown.Some? ==> FollowsThePicks(tags, picked, old(server.bound), server.bound)
    ensures shown.Some? ==> ShowsListed(tags, server.bound, shown.value)
    ensures shown.Some? ==> |issued| >= |Difference(old(server.bound), SystemIds(tags), picked)|
    ensures shown.Some? && NoRepeats(picked) ==> |issued| == |Difference(old(server.bound), SystemIds(tags), picked)|
    ensures issued == [] <==> Difference(old(server.bound), SystemIds(tags), picked) == {}
    ensures forall t | t in server.system && t in old(server.bound) :: t in server.bound
  {
    var system := SystemIds(tags);
    var existing := server.bound;
    var managed := existing - system;
    var desired := Managed(system, picked);
    ManagedElements(system, picked);
    assert Elements(desired) == Elements(picked) - system;
    BothLoopsReachTheTarget(existing, system, picked, Elements(desired));
    ghost var was := server.writes;
    ghost var binds := BindMissing(server, desired, existing);
    ghost var middle := server.bound;
    var ok, unbinds := UnbindOthers(server, desired, managed);
    issued := binds + unbinds;
    assert was + binds + unbinds == was + (binds + unbinds);
    shown := if ok then Some(server.bound * KnownIds(tags)) else None;
    WritesArePurposeful(existing, system, picked, desired, managed, binds, unbinds);
    WritesSpareIffTagsAgree(existing, system, picked, desired, server.system, ok, binds, unbinds);
    if ok {
      TargetFollowsThePicks(tags, picked, existing);
      WritesAreTheDifference(existing, system, picked, desired, managed, binds, unbinds);
    }
  }

  /** Reconciling again, for the same picks, writes nothing; not even repeated picks are written again. */
  lemma NothingLeftToWrite(bound: set<string>, system: set<string>, picked: seq<string>, issued: seq<Write>)
    requires AllPurposeful(issued, Target(bound, system, picked), system, picked)
    ensures issued == []
  {
    assert issued == [] || Purposeful(issued[0], Target(bound, system, picked), system, picked);
    forall w ensures !Purposeful(w, Target(bound, system, picked), system, picked) {
      assert w.tag in Target(bound, system, picked) <==> w.tag in bound * system || (w.tag in picked && w.tag !in system);
    }
  }

  lemma BothLoopsReachTheTarget(existing: set<string>, system: set<string>, picked: seq<string>, desired: set<string>)
    requires desired == Elements(picked) - system
    ensures existing + desired - ((existing - system) - desired) == Target(existing, system, picked)
  {
  }

  lemma WritesArePurposeful(existing: set<string>, system: set<string>, picked: seq<string>, desired: seq<string>,
                            managed: set<string>, binds: seq<Write>, unbinds: seq<Write>)
    requires managed == existing - system && Elements(desired) == Elements(picked) - system
    requires BindsOnly(binds, Elements(desired), existing) && UnbindsOnly(unbinds, managed, Elements(desired))
    ensures AllPurposeful(binds + unbinds, existing, system, picked)
  {
  }

  /** The server refuses a write exactly when one of its system tags would have to be unbound. */
  lemma RefusedIffSystemTagUnpicked(ok: bool, unbinds: seq<Write>, managed: set<string>, picked: set<string>, serverSystem: set<string>)
    requires Unbinds(ok, unbinds, managed, picked, serverSystem)
    ensures ok <==> forall t | t in serverSystem && t in managed :: t in picked
  {
    if ok {
      forall t | t in serverSystem && t in managed ensures t in picked {
        assert Unbind(t) in unbinds ==> Unbind(t).tag !in serverSystem;
      }
    } else {
      var w :| w in unbinds && w.tag in serverSystem;
      assert w.tag in managed && w.tag !in picked;
    }
  }

  lemma BindsSpareIff(binds: seq<Write>, desired: set<string>, existing: set<string>, serverSystem: set<string>)
    requires BindsOnly(binds, desired, existing) && BindsAll(binds, desired, existing)
    ensures Spares(binds, serverSystem) <==> forall t | t in serverSystem && t in desired :: t in existing
    ensures binds == [] <==> desired <= existing
  {
    if Spares(binds, serverSystem) {
      forall t | t in serverSystem && t in desired ensures t in existing {
        assert Bind(t) in binds ==> Bind(t).tag !in serverSystem;
      }
    }
    if binds != [] {
      assert binds[0].tag in desired && binds[0].tag !in existing;
    }
  }

  lemma UnbindsNothingIff(ok: bool, unbinds: seq<Write>, managed: set<string>, picked: set<string>, serverSystem: set<string>)
    requires Unbinds(ok, unbinds, managed, picked, serverSystem)
    ensures unbinds == [] <==> managed <= picked
  {
    if unbinds != [] {
      assert unbinds[0].tag in managed && unbinds[0].tag !in picked;
    }
  }

  /** No write names a system tag of the server if and only if those tags agree; a refused one is named. */
  lemma WritesSpareIffTagsAgree(existing: set<string>, system: set<string>, picked: seq<string>, desired: seq<string>,
                                serverSystem: set<string>, ok: bool, binds: seq<Write>, unbinds: seq<Write>)
    requires Elements(desired) == Elements(picked) - system
    requires BindsOnly(binds, Elements(desired), existing) && BindsAll(binds, Elements(desired), existing)
    requires Unbinds(ok, unbinds, existing - system, Elements(desired), serverSystem)
    ensures Spares(binds + unbinds, serverSystem) <==> SystemTagsAgree(serverSystem, existing, system, picked)
    ensures ok <==> forall t | t in serverSystem && t in existing && t !in system :: t in picked
    ensures binds + unbinds == [] <==> Difference(existing, system, picked) == {}
  {
    var wanted := Elements(desired);
    assert forall t :: t in wanted <==> t in picked && t !in system;
    RefusedIffSystemTagUnpicked(ok, unbinds, existing - system, wanted, serverSystem);
    BindsSpareIff(binds, wanted, existing, serverSystem);
    UnbindsNothingIff(ok, unbinds, existing - system, wanted, serverSystem);
    assert Difference(existing, system, picked) == (existing - system - wanted) + (wanted - existing);
    assert Spares(binds + unbinds, serverSystem) <==> Spares(binds, serverSystem) && Spares(unbinds, serverSystem);
    forall t | t in serverSystem && t !in system
      ensures t in existing - system <==> t in existing
      ensures t in wanted <==> t in picked
    {
    }
  }

  lemma WritesAreTheDifference(existing: set<string>, system: set<string>, picked: seq<string>, desired: seq<string>,
                               managed: set<string>, binds: seq<Write>, unbinds: seq<Write>)
    requires managed == existing - system && Elements(desired) == Elements(picked) - system
    requires NoRepeats(picked) ==> NoRepeats(desired)
    requires |binds| >= |Elements(desired) - existing| && |unbinds| == |managed - Elements(desired)|
    requires NoRepeats(desired) ==> |binds| == |Elements(desired) - existing|
    ensures |binds + unbinds| >= |Difference(existing, system, picked)|
    ensures NoRepeats(picked) ==> |binds + unbinds| == |Difference(existing, system, picked)|
  {
    assert Difference(existing, system, picked) == (Elements(desired) - existing) + (managed - Elements(desired));
    assert (Elements(desired) - existing) !! (managed - Elements(desired));
  }
}
