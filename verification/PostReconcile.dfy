/** What follows a tick: pruning, and the lifecycle event. */
module PostReconcile {
  import opened Text
  import opened SupervisorState
  import opened Reconciler
  import opened Retention

  /** `run_post_reconcile_hooks`, as far as it changes the directory. */
  function Hooks(w: World, r: Result, order: seq<string>, keepVersions: nat, stuck: set<string>): World {
    if r.finalState == Running && Truthy(r.error).None? then
      w.(versions := Survivors(w.versions, order, r.activeVersion, r.previousVersion, keepVersions, stuck))
    else w
  }

  datatype LifecycleEvent = AddonFailed | AddonUpdated | AddonStarted

  /** `_emit_lifecycle_event`. */
  function Emitted(r: Result): Option<LifecycleEvent> {
    if r.finalState == Failed then Some(AddonFailed)
    else if !r.changed then None
    else if r.finalState == Running && Truthy(r.activeVersion).Some? then
      Some(if Truthy(r.previousVersion).Some? && r.previousVersion != r.activeVersion then AddonUpdated else AddonStarted)
    else None
  }

  predicate RanWell(r: Result) { r.finalState == Running && (r.error.None? || r.error == Some("")) }

  /** The result names `v` as the version that runs or the one before it. */
  predicate InUse(r: Result, v: string) { v != "" && (r.activeVersion == Some(v) || r.previousVersion == Some(v)) }

  /** The names a set of directories takes up, with those in use that may be missing. */
  function Taken(names: set<string>, r: Result): set<string> { names + Protected(r.activeVersion, r.previousVersion) }

  lemma TakenAre(names: set<string>, r: Result, v: string)
    ensures v in Taken(names, r) <==> v in names || InUse(r, v)
  {}

  /**
   * After a tick that ran well, a complete listing and working deletes leave exactly as many directories as the limit
   * allows, counting those in use, which stay. Nothing else changes, and after any other tick nothing does.
   */
  lemma HooksPrune(w: World, r: Result, order: seq<string>, keepVersions: nat)
    requires keepVersions >= MIN_KEEP_VERSIONS && DistinctNames(order) && forall v :: v in w.versions ==> v in order
    ensures var left := Hooks(w, r, order, keepVersions, {});
            if RanWell(r) then
              var before := |Taken(w.versions.Keys, r)|;
              && left == w.(versions := left.versions)
              && left.versions.Keys <= w.versions.Keys && |left.versions.Keys| <= keepVersions
              && |Taken(left.versions.Keys, r)| == (if before <= keepVersions then before else keepVersions)
              && (forall v :: v in left.versions ==> left.versions[v] == w.versions[v])
              && (forall v :: v in w.versions && InUse(r, v) ==> v in left.versions)
            else left == w
  {
    if RanWell(r) {
      CleanupProtects(w.versions, order, r.activeVersion, r.previousVersion, keepVersions, {});
      SurvivorsCount(w.versions, order, r, keepVersions);
    }
  }

  lemma SurvivorsCount(versions: map<string, VersionDir>, order: seq<string>, r: Result, keepVersions: nat)
    requires keepVersions >= MIN_KEEP_VERSIONS && DistinctNames(order) && forall v :: v in versions ==> v in order
    ensures var left := Survivors(versions, order, r.activeVersion, r.previousVersion, keepVersions, {});
            var before := |Taken(versions.Keys, r)|;
            && |left.Keys| <= keepVersions
            && |Taken(left.Keys, r)| == if before <= keepVersions then before else keepVersions
  {
    RetentionSize(versions, order, r.activeVersion, r.previousVersion, keepVersions);
    KeepWithin(versions, order, r, keepVersions);
    var keep := KeepSet(Protected(r.activeVersion, r.previousVersion), Entries(order, versions), keepVersions);
    TakenSize(versions.Keys, Protected(r.activeVersion, r.previousVersion), keep, keepVersions);
  }

  /** And of the directories not in use the newest stay. */
  lemma HooksKeepNewest(w: World, r: Result, order: seq<string>, keepVersions: nat, a: string, b: string)
    requires DistinctNames(order) && forall v :: v in w.versions ==> v in order
    requires a in Hooks(w, r, order, keepVersions, {}).versions && !InUse(r, a)
    requires b in w.versions && b !in Hooks(w, r, order, keepVersions, {}).versions
    ensures a in w.versions && w.versions[a].mtime >= w.versions[b].mtime
  {
    CleanupProtects(w.versions, order, r.activeVersion, r.previousVersion, keepVersions, {});
    RetentionAge(w.versions, order, r.activeVersion, r.previousVersion, keepVersions, a, b);
  }

  lemma KeepWithin(versions: map<string, VersionDir>, order: seq<string>, r: Result, keepVersions: nat)
    requires keepVersions >= MIN_KEEP_VERSIONS && DistinctNames(order) && forall v :: v in versions ==> v in order
    ensures var safe := Protected(r.activeVersion, r.previousVersion);
            var keep := KeepSet(safe, Entries(order, versions), keepVersions);
            && safe <= keep <= versions.Keys + safe && |keep| <= keepVersions
            && (!(versions.Keys <= keep) ==> |keep| == keepVersions)
  {
    var safe, entries := Protected(r.activeVersion, r.previousVersion), Entries(order, versions);
    KeepSize(entries, r.activeVersion, r.previousVersion, keepVersions);
    EntriesAreAll(versions, order);
    var k := KeepIsPrefix(safe, entries, keepVersions);
    forall n | n in KeepSet(safe, entries, keepVersions) && n !in safe ensures n in versions {
      var i :| 0 <= i < k && i < |entries| && entries[i].name == n;
    }
  }

  lemma TakenSize(names: set<string>, safe: set<string>, keep: set<string>, keepVersions: nat)
    requires safe <= keep <= names + safe && |keep| <= keepVersions && (!(names <= keep) ==> |keep| == keepVersions)
    ensures |names * keep + safe| == if |names + safe| <= keepVersions then |names + safe| else keepVersions
  {
    assert names * keep + safe == keep;
    if names <= keep {
      assert names + safe == keep;
    } else {
      var n :| n in names && n !in keep;
      Subset(keep, names + safe - {n});
    }
  }
}
