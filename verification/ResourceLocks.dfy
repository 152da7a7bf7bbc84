/** Planning the acquisition of logical resources (packages/core/src/domain/resource-lock.ts). */
module ResourceLocks {
  import opened Options
  import opened Text
  import opened Sorting

  datatype Owner = Owner(taskId: string, attemptId: Option<string>, executionId: Option<string>)

  datatype ResourceLock = ResourceLock(resource: string, owner: Owner)

  datatype HolderConflict = HolderConflict(resource: string, holderTaskId: string, holderAttemptId: Option<string>)

  datatype Plan = Acquire(locks: seq<ResourceLock>) | Refuse(conflicts: seq<HolderConflict>)

  const LOCK_ORDER: (ResourceLock, ResourceLock) -> bool :=
    (a: ResourceLock, b: ResourceLock) => AtMost(a.resource, b.resource)

  predicate IsRequired(resource: string, resources: seq<string>) {
    resource != "" && resource in resources
  }

  /** One lock per required resource, in ascending order of the resources. */
  ghost predicate AreRequiredLocks(locks: seq<ResourceLock>, owner: Owner, resources: seq<string>) {
    && (forall l :: l in locks ==> l.owner == owner && IsRequired(l.resource, resources))
    && (forall r :: IsRequired(r, resources) ==> ResourceLock(r, owner) in locks)
    && AscendingResources(locks)
  }

  ghost predicate AscendingResources(locks: seq<ResourceLock>) {
    forall i, j :: 0 <= i < j < |locks| ==> Less(locks[i].resource, locks[j].resource)
  }

  lemma LockOrderIsTotal()
    ensures TotalPreorder(LOCK_ORDER)
  {
    forall a, b ensures LOCK_ORDER(a, b) || LOCK_ORDER(b, a) {
      StringOrder(a.resource, b.resource, b.resource);
    }
    forall a, b, c | LOCK_ORDER(a, b) && LOCK_ORDER(b, c) ensures LOCK_ORDER(a, c) {
      StringOrder(a.resource, b.resource, c.resource);
    }
  }

  /** Sorting locks of one owner for different resources makes the resources strictly ascending. */
  lemma SortedLocks(found: seq<ResourceLock>, owner: Owner)
    requires forall i, j :: 0 <= i < j < |found| ==> found[i].resource != found[j].resource
    requires forall l :: l in found ==> l.owner == owner
    ensures forall l :: l in SortBy(LOCK_ORDER, found) <==> l in found
    ensures AscendingResources(SortBy(LOCK_ORDER, found))
  {
    hide SortBy, Less, AtMost;
    var r := SortBy(LOCK_ORDER, found);
    LockOrderIsTotal();
    SortBySorted(LOCK_ORDER, found);
    hide TotalPreorder;
    SameElements(r, found);
    var key := (l: ResourceLock) => l.resource;
    assert DistinctBy(key, found);
    MovedKeysDiffer(key, found, r);
    forall i, j | 0 <= i < j < |r| ensures Less(r[i].resource, r[j].resource) {
      assert LOCK_ORDER(r[i], r[j]);
      StringOrder(r[i].resource, r[j].resource, r[j].resource);
      assert key(r[i]) != key(r[j]);
    }
  }

  /** requiredResourceLocks. */
  method RequiredResourceLocks(owner: Owner, resources: seq<string>) returns (locks: seq<ResourceLock>)
    ensures AreRequiredLocks(locks, owner, resources)
    ensures forall r :: ResourceLock(r, owner) in locks <==> r != "" && r in resources
  {
    hide AscendingResources;
    var found: seq<ResourceLock> := [];
    var names: set<string> := {};
    for i := 0 to |resources|
      invariant forall r :: r in names <==> IsRequired(r, resources[..i])
      invariant forall l :: l in found <==> l.owner == owner && l.resource in names
      invariant forall k, l :: 0 <= k < l < |found| ==> found[k].resource != found[l].resource
    {
      if |resources[i]| == 0 || resources[i] in names {
        continue;
      }
      names := names + {resources[i]};
      found := found + [ResourceLock(resources[i], owner)];
    }
    assert resources[..|resources|] == resources;
    assert forall r :: IsRequired(r, resources) ==> ResourceLock(r, owner) in found;
    SortedLocks(found, owner);
    locks := SortBy(LOCK_ORDER, found);
  }

  /** A held lock that keeps the owner from a required resource. */
  predicate Blocks(held: ResourceLock, owner: Owner, resources: seq<string>) {
    IsRequired(held.resource, resources) && held.owner != owner
  }

  function OrEmpty(id: Option<string>): string {
    if id.Some? then id.value else ""
  }

  function ConflictOf(held: ResourceLock): HolderConflict {
    HolderConflict(held.resource, held.owner.taskId, held.owner.attemptId)
  }

  /** The key under which a holder is reported once. */
  function HolderKey(held: ResourceLock): string {
    held.resource + "\0" + held.owner.taskId + "\0" + OrEmpty(held.owner.attemptId)
  }

  const CONFLICT_ORDER: (HolderConflict, HolderConflict) -> bool := (a: HolderConflict, b: HolderConflict) =>
    if a.resource != b.resource then Less(a.resource, b.resource)
    else if a.holderTaskId != b.holderTaskId then Less(a.holderTaskId, b.holderTaskId)
    else AtMost(OrEmpty(a.holderAttemptId), OrEmpty(b.holderAttemptId))

  lemma ConflictOrderIsTotal()
    ensures TotalPreorder(CONFLICT_ORDER)
  {
    hide Less, AtMost, OrEmpty;
    forall a, b ensures CONFLICT_ORDER(a, b) || CONFLICT_ORDER(b, a) {
      StrictStringOrder(a.resource, b.resource, b.resource);
      StrictStringOrder(a.holderTaskId, b.holderTaskId, b.holderTaskId);
      StringOrder(OrEmpty(a.holderAttemptId), OrEmpty(b.holderAttemptId), OrEmpty(b.holderAttemptId));
    }
    forall a, b, c | CONFLICT_ORDER(a, b) && CONFLICT_ORDER(b, c) ensures CONFLICT_ORDER(a, c) {
      ConflictOrderChains(a, b, c);
    }
  }

  lemma ConflictOrderChains(a: HolderConflict, b: HolderConflict, c: HolderConflict)
    requires CONFLICT_ORDER(a, b) && CONFLICT_ORDER(b, c)
    ensures CONFLICT_ORDER(a, c)
  {
    StrictStringOrder(a.resource, b.resource, c.resource);
    StrictStringOrder(a.holderTaskId, b.holderTaskId, c.holderTaskId);
    StringOrder(OrEmpty(a.holderAttemptId), OrEmpty(b.holderAttemptId), OrEmpty(c.holderAttemptId));
  }

  /** A conflict that names a blocking holder. */
  ghost predicate NamesHolder(c: HolderConflict, owner: Owner, resources: seq<string>, held: seq<ResourceLock>) {
    exists h :: h in held && Blocks(h, owner, resources) && ConflictOf(h) == c
  }

  /** A key whose first blocking holder is among the conflicts. */
  ghost predicate KeyReported(key: string, conflicts: seq<HolderConflict>, owner: Owner, resources: seq<string>, held: seq<ResourceLock>) {
    exists h :: h in held && Blocks(h, owner, resources) && HolderKey(h) == key && ConflictOf(h) in conflicts
  }

  /** Exactly the blocking holders are reported, in order. */
  ghost predicate AreConflicts(conflicts: seq<HolderConflict>, owner: Owner, resources: seq<string>, held: seq<ResourceLock>) {
    && (forall c :: c in conflicts ==> NamesHolder(c, owner, resources, held))
    && (forall h :: h in held && Blocks(h, owner, resources) ==> KeyReported(HolderKey(h), conflicts, owner, resources, held))
    && Sorted(CONFLICT_ORDER, conflicts)
  }

  /** Every reported conflict names a holder, and every seen key is reported. */
  ghost predicate Consistent(found: seq<HolderConflict>, seen: set<string>, owner: Owner, resources: seq<string>, held: seq<ResourceLock>) {
    && (forall c :: c in found ==> NamesHolder(c, owner, resources, held))
    && (forall key :: key in seen ==> KeyReported(key, found, owner, resources, held))
  }

  /** The holders of a resource among the first j held locks are seen. */
  ghost predicate HoldersSeen(seen: set<string>, resource: string, owner: Owner, held: seq<ResourceLock>) {
    forall h :: h in held && h.resource == resource && h.owner != owner ==> HolderKey(h) in seen
  }

  lemma ReportHolder(found: seq<HolderConflict>, seen: set<string>, h: ResourceLock, owner: Owner, resources: seq<string>, held: seq<ResourceLock>)
    requires Consistent(found, seen, owner, resources, held) && h in held && Blocks(h, owner, resources)
    ensures Consistent(found + [ConflictOf(h)], seen + {HolderKey(h)}, owner, resources, held)
  {
    hide HolderKey, ConflictOf, Blocks;
    var more := found + [ConflictOf(h)];
    assert ConflictOf(h) in more;
    forall key | key in seen + {HolderKey(h)} ensures KeyReported(key, more, owner, resources, held) {
      if key in seen {
        var g :| g in held && Blocks(g, owner, resources) && HolderKey(g) == key && ConflictOf(g) in found;
        assert ConflictOf(g) in more;
      }
    }
  }

  /** One required lock against every held lock. */
  method CollectHolders(resource: string, owner: Owner, resources: seq<string>, held: seq<ResourceLock>,
                        found: seq<HolderConflict>, seen: set<string>)
    returns (conflicts: seq<HolderConflict>, seenHolders: set<string>)
    requires IsRequired(resource, resources) && Consistent(found, seen, owner, resources, held)
    ensures Consistent(conflicts, seenHolders, owner, resources, held)
    ensures seen <= seenHolders && HoldersSeen(seenHolders, resource, owner, held)
  {
    hide HolderKey, Consistent, IsRequired;
    conflicts, seenHolders := found, seen;
    for j := 0 to |held|
      invariant Consistent(conflicts, seenHolders, owner, resources, held)
      invariant seen <= seenHolders && HoldersSeen(seenHolders, resource, owner, held[..j])
    {
      var existing := held[j];
      assert held[..j + 1] == held[..j] + [existing];
      if existing.resource != resource || existing.owner == owner || HolderKey(existing) in seenHolders {
        continue;
      }
      ReportHolder(conflicts, seenHolders, existing, owner, resources, held);
      seenHolders := seenHolders + {HolderKey(existing)};
      conflicts := conflicts + [ConflictOf(existing)];
    }
    assert held[..|held|] == held;
  }

  lemma SortedConflicts(conflicts: seq<HolderConflict>)
    ensures Sorted(CONFLICT_ORDER, SortBy(CONFLICT_ORDER, conflicts))
    ensures forall c :: c in SortBy(CONFLICT_ORDER, conflicts) <==> c in conflicts
    ensures |SortBy(CONFLICT_ORDER, conflicts)| == |conflicts|
  {
    ConflictOrderIsTotal();
    SortBySorted(CONFLICT_ORDER, conflicts);
    SameElements(SortBy(CONFLICT_ORDER, conflicts), conflicts);
  }

  lemma BlockerSeen(h: ResourceLock, seen: set<string>, required: seq<ResourceLock>,
                    owner: Owner, resources: seq<string>, held: seq<ResourceLock>)
    requires AreRequiredLocks(required, owner, resources) && h in held && Blocks(h, owner, resources)
    requires forall k :: 0 <= k < |required| ==> HoldersSeen(seen, required[k].resource, owner, held)
    ensures HolderKey(h) in seen
  {
    hide HolderKey, AscendingResources;
    var k :| 0 <= k < |required| && required[k] == ResourceLock(h.resource, owner);
    assert HoldersSeen(seen, required[k].resource, owner, held);
  }

  lemma SameReport(conflicts: seq<HolderConflict>, sorted: seq<HolderConflict>, seen: set<string>,
                   owner: Owner, resources: seq<string>, held: seq<ResourceLock>)
    requires forall c :: c in sorted <==> c in conflicts
    requires Consistent(conflicts, seen, owner, resources, held)
    ensures Consistent(sorted, seen, owner, resources, held)
  {
    hide HolderKey, ConflictOf, Blocks;
  }

  lemma PlanIsComplete(conflicts: seq<HolderConflict>, seen: set<string>, required: seq<ResourceLock>,
                       owner: Owner, resources: seq<string>, held: seq<ResourceLock>)
    requires AreRequiredLocks(required, owner, resources) && Consistent(conflicts, seen, owner, resources, held)
    requires forall k :: 0 <= k < |required| ==> HoldersSeen(seen, required[k].resource, owner, held)
    ensures conflicts == [] <==> forall h :: h in held ==> !Blocks(h, owner, resources)
    ensures AreConflicts(SortBy(CONFLICT_ORDER, conflicts), owner, resources, held)
  {
    hide HolderKey, ConflictOf, SortBy, Sorted, AreRequiredLocks, Blocks, IsRequired, HoldersSeen, KeyReported;
    var sorted := SortBy(CONFLICT_ORDER, conflicts);
    SortedConflicts(conflicts);
    SameReport(conflicts, sorted, seen, owner, resources, held);
    forall h | h in held && Blocks(h, owner, resources)
      ensures KeyReported(HolderKey(h), sorted, owner, resources, held) && conflicts != []
    {
      BlockerSeen(h, seen, required, owner, resources, held);
      ReportedIsNotEmpty(HolderKey(h), sorted, owner, resources, held);
    }
    if conflicts != [] {
      assert NamesHolder(conflicts[0], owner, resources, held);
    }
  }

  lemma ReportedIsNotEmpty(key: string, conflicts: seq<HolderConflict>, owner: Owner, resources: seq<string>, held: seq<ResourceLock>)
    requires KeyReported(key, conflicts, owner, resources, held)
    ensures conflicts != []
  {
    hide HolderKey, ConflictOf, Blocks;
  }

  predicate IsPlainName(name: string) {
    '\0' !in name
  }

  /** The names of a holder hold no separator, and an attempt that is given has a name. */
  predicate HasPlainNames(held: ResourceLock) {
    && IsPlainName(held.resource) && IsPlainName(held.owner.taskId)
    && (held.owner.attemptId.Some? ==> IsPlainName(held.owner.attemptId.value) && held.owner.attemptId != Some(""))
  }

  lemma FirstParts(a: string, b: string, x: string, y: string)
    requires IsPlainName(a) && IsPlainName(b) && a + "\0" + x == b + "\0" + y
    ensures a == b && x == y
  {
    var s, t := a + "\0" + x, b + "\0" + y;
    assert s[|a|] == '\0' && t[|b|] == '\0';
    assert forall i :: 0 <= i < |a| ==> s[i] == a[i] && a[i] != '\0';
    assert forall i :: 0 <= i < |b| ==> t[i] == b[i] && b[i] != '\0';
    assert |a| == |b|;
    assert s[..|a|] == a && t[..|b|] == b && s[|a| + 1..] == x && t[|b| + 1..] == y;
  }

  /** Keys tell holders apart. */
  lemma KeysTellHolders(a: ResourceLock, b: ResourceLock)
    requires HasPlainNames(a) && HasPlainNames(b) && HolderKey(a) == HolderKey(b)
    ensures ConflictOf(a) == ConflictOf(b)
  {
    var restA, restB := a.owner.taskId + "\0" + OrEmpty(a.owner.attemptId), b.owner.taskId + "\0" + OrEmpty(b.owner.attemptId);
    assert HolderKey(a) == a.resource + "\0" + restA && HolderKey(b) == b.resource + "\0" + restB;
    FirstParts(a.resource, b.resource, restA, restB);
    FirstParts(a.owner.taskId, b.owner.taskId, OrEmpty(a.owner.attemptId), OrEmpty(b.owner.attemptId));
  }

  /** Every holder that is in the way is named, in the order of resources, tasks and attempts, those without an attempt first. */
  lemma EveryHolderIsNamed(conflicts: seq<HolderConflict>, owner: Owner, resources: seq<string>, held: seq<ResourceLock>)
    requires AreConflicts(conflicts, owner, resources, held) && forall h :: h in held ==> HasPlainNames(h)
    ensures forall h :: h in held && h.resource != "" && h.resource in resources && h.owner != owner ==>
              HolderConflict(h.resource, h.owner.taskId, h.owner.attemptId) in conflicts
    ensures forall i, j :: 0 <= i < j < |conflicts| ==>
              var a, b := conflicts[i], conflicts[j];
              || Less(a.resource, b.resource)
              || (a.resource == b.resource && Less(a.holderTaskId, b.holderTaskId))
              || (a.resource == b.resource && a.holderTaskId == b.holderTaskId
                  && (a.holderAttemptId.None? || (b.holderAttemptId.Some? && AtMost(a.holderAttemptId.value, b.holderAttemptId.value))))
  {
    forall h | h in held && Blocks(h, owner, resources) ensures ConflictOf(h) in conflicts {
      var g :| g in held && Blocks(g, owner, resources) && HolderKey(g) == HolderKey(h) && ConflictOf(g) in conflicts;
      KeysTellHolders(g, h);
    }
    forall i, j | 0 <= i < j < |conflicts| ensures CONFLICT_ORDER(conflicts[i], conflicts[j])
        && conflicts[i].holderAttemptId != Some("") && conflicts[j].holderAttemptId != Some("") {
      assert NamesHolder(conflicts[i], owner, resources, held) && NamesHolder(conflicts[j], owner, resources, held);
    }
    hide HolderKey, AreConflicts, Blocks;
    NothingBelowEmpty();
  }

  lemma NothingBelowEmpty()
    ensures forall s :: s != "" ==> !AtMost(s, "")
  {
  }

  /** planResourceAcquisition. */
  method PlanResourceAcquisition(owner: Owner, resources: seq<string>, held: seq<ResourceLock>) returns (plan: Plan)
    ensures plan.Acquire? <==> forall h :: h in held ==> !Blocks(h, owner, resources)
    ensures plan.Acquire? ==> AreRequiredLocks(plan.locks, owner, resources)
    ensures plan.Refuse? ==> plan.conflicts != [] && AreConflicts(plan.conflicts, owner, resources, held)
  {
    var required := RequiredResourceLocks(owner, resources);
    var conflicts: seq<HolderConflict> := [];
    var seenHolders: set<string> := {};
    assert Consistent(conflicts, seenHolders, owner, resources, held);
    hide Consistent, AreConflicts, Blocks;
    for i := 0 to |required|
      invariant Consistent(conflicts, seenHolders, owner, resources, held)
      invariant forall k :: 0 <= k < i ==> HoldersSeen(seenHolders, required[k].resource, owner, held)
    {
      assert required[i] in required;
      conflicts, seenHolders := CollectHolders(required[i].resource, owner, resources, held, conflicts, seenHolders);
    }
    PlanIsComplete(conflicts, seenHolders, required, owner, resources, held);
    if |conflicts| > 0 {
      SortedConflicts(conflicts);
      return Refuse(SortBy(CONFLICT_ORDER, conflicts));
    }
    return Acquire(required);
  }
}
