/** Concrete runs in which the supervisor does what its names do not promise: the conditions stated for that are met. */
module Witnesses {
  import opened Text
  import opened ComposeFile
  import opened ComposeFixpoint
  import opened SupervisorState
  import opened Reconciler
  import opened SupervisorRuns
  import opened PostReconcile
  import opened ComposeCache
  import opened Convergence
  import TickSafety

  const ROOT := "r"
  const WORKS := Oracle(None, "", No, None, {}, true, true, true, true)

  function Wanted(state: string, version: string, revision: Option<string>, network: string): Desired {
    Desired("a", state, revision, false, [], Some(version), "p", network, [], true, None, None)
  }

  function Fetched(compose: Option<string>): VersionDir { VersionDir(0, Some(Artifact(map[])), None, compose) }

  function RunningRecord(version: string, previous: Option<string>, revision: Option<string>): RuntimeState {
    NewRuntime("a").(state := Running, activeVersion := Some(version), previousVersion := previous, revision := revision)
  }

  // ---------------------------------------------------------------- a compose file that outlives its settings

  /** Text of letters, digits, dots, dashes and slashes. */
  predicate PlainPath(s: string) {
    forall k :: 0 <= k < |s| ==> 'a' <= s[k] <= 'z' || IsDigit(s[k]) || s[k] == '.' || s[k] == '-' || s[k] == '/'
  }

  lemma PlainIsFree(s: string)
    requires PlainPath(s)
    ensures NoBreak(s) && !Contains(s, STALE_DESIRED) && !Contains(s, STALE_RUNTIME)
  {
    StaleTexts();
    forall k, sub | 0 <= k <= |s| - |sub| && StaleText(sub) ensures !StandsAt(s, sub, k) {
      assert s[k..k + |sub|][|sub| - 3] == s[k + |sub| - 3];
    }
  }

  lemma PlainPieces()
    ensures PlainPath("r") && PlainPath("1") && PlainPath("a") && PlainPath("old") && PlainPath("/versions/")
  {}

  lemma PlainFiles()
    ensures PlainPath("/extracted") && PlainPath("/runtime.env") && PlainPath("/docker-compose.yml")
    ensures PlainPath("/desired.json") && PlainPath("/runtime.json")
  {}

  lemma PlainCat(a: string, b: string)
    requires PlainPath(a) && PlainPath(b)
    ensures PlainPath(a + b)
  {}

  lemma PlainSetup(g: Digest)
    requires g == Digest(InputOf(Wanted("running", "1", None, "old")), "a")
    ensures var c := SetupFrom(ROOT, "1", g, No);
            SingleLined(c) && ProperName(c.service) && Free(c, STALE_DESIRED) && Free(c, STALE_RUNTIME)
  {
    PlainPieces();
    PlainFiles();
    PlainCat(ROOT, "/versions/");
    PlainCat(ROOT + "/versions/", "1");
    var dir := VersionPath(ROOT, "1");
    PlainCat(dir, "/extracted");
    PlainCat(dir, "/runtime.env");
    PlainCat(dir, "/docker-compose.yml");
    PlainCat(ROOT, "/desired.json");
    PlainCat(ROOT, "/runtime.json");
    PlainIsFree("a");
    PlainIsFree("old");
    PlainIsFree(dir + "/extracted");
    PlainIsFree(dir + "/runtime.env");
    PlainIsFree(dir + "/docker-compose.yml");
    PlainIsFree(ROOT + "/desired.json");
    PlainIsFree(ROOT + "/runtime.json");
  }

  lemma StartCarries(w: World, d: Desired)
    requires Starts(ROOT, w, d, WORKS)
    ensures var m, t := StartMachine(ROOT, w, d, WORKS), Reconcile(ROOT, w, d, WORKS);
            && t.result.finalState == Running
            && t.machine.world.commands == m.world.commands && t.machine.world.versions == m.world.versions
  {}

  /** Stopped, given another network, and started again: docker is handed the file of the old network. */
  lemma StaleAfterStopHappens() returns (w: World, text: string)
    ensures var stop, d := Wanted("stopped", "1", None, "old"), Wanted("running", "1", None, "new");
            var w1 := Reconcile(ROOT, w, stop, WORKS).machine.world;
            var t := Reconcile(ROOT, w1, d, WORKS);
            && ComposeOf(w, "1") == Some(text)
            && Fresh(text, ROOT, "1", DigestOf(Wanted("running", "1", None, "old"), TreeOf(w, "1")))
            && t.result.finalState == Running && HandedOver(t.machine.world, "1", text)
            && !Fresh(text, ROOT, "1", DigestOf(d, TreeOf(t.machine.world, "1")))
  {
    var was := Digest(InputOf(Wanted("running", "1", None, "old")), "a");
    text := Render(SetupFrom(ROOT, "1", was, No));
    w := World(Missing, None, None, map["1" := Fetched(Some(text))], []);
    StaleFrom(w, was, Wanted("stopped", "1", None, "old"), Wanted("running", "1", None, "new"));
  }

  lemma StaleFrom(w: World, was: Digest, stop: Desired, d: Desired)
    requires w.runtime.Missing? && w.current.None? && ArtifactOf(w, "1").Some?
    requires was == Digest(InputOf(Wanted("running", "1", None, "old")), "a")
    requires stop == Wanted("stopped", "1", None, "old") && d == Wanted("running", "1", None, "new")
    requires ComposeOf(w, "1") == Some(Render(SetupFrom(ROOT, "1", was, No)))
    ensures var text := Render(SetupFrom(ROOT, "1", was, No));
            var t := Reconcile(ROOT, Reconcile(ROOT, w, stop, WORKS).machine.world, d, WORKS);
            && t.result.finalState == Running && HandedOver(t.machine.world, "1", text)
            && !Fresh(text, ROOT, "1", DigestOf(d, TreeOf(t.machine.world, "1")))
  {
    StopsAtOnce(w, stop);
    var w1 := Reconcile(ROOT, w, stop, WORKS).machine.world;
    StartWorks(ROOT, w1, d, WORKS);
    PlainSetup(was);
    assert NoBreak("new");
    StaleAfterStop(ROOT, w, was, No, stop, WORKS, d, WORKS);
    StartCarries(w1, d);
  }

  lemma StopsAtOnce(w: World, stop: Desired)
    requires w.runtime.Missing? && w.current.None? && stop.desiredState == "stopped"
    ensures StopMachine(ROOT, w, stop, WORKS).ok
    ensures var w1 := Reconcile(ROOT, w, stop, WORKS).machine.world;
            w1.versions == w.versions && w1.runtime.Saved? && w1.runtime.record.state == Stopped
  {
    StopForgets(ROOT, w, stop, WORKS);
  }

  // ---------------------------------------------------------------- a link the record does not know of

  /** Two versions fetched, one of them running. */
  function TwoVersions(record: RuntimeState, current: string): World {
    World(Saved(record), Some(current), None, map["1" := Fetched(None), "2" := Fetched(None)], [])
  }

  /** A wanted version that the record does not run, or without a revision, is started. */
  lemma Acts(w: World, version: string, revision: Option<string>)
    requires ArtifactOf(w, version).Some? && version != ""
    requires var d := Wanted("running", version, revision, "n"); !IsNoop(d, PriorOf(w.runtime))
    ensures Starts(ROOT, w, Wanted("running", version, revision, "n"), WORKS)
  {
    StartWorks(ROOT, w, Wanted("running", version, revision, "n"), WORKS);
  }

  lemma FirstSettled(w: World)
    requires w.runtime == Saved(RunningRecord("1", None, Some("x")))
    ensures Settled(w, Wanted("running", "1", Some("x"), "n"))
  {
    StripFixed("x");
  }

  /** Version 1 runs; a start of version 2 crashes with the link moved; version 1 is wanted again and never comes back. */
  lemma RevertAfterCrashHappens() returns (w: World)
    ensures var d1, d2 := Wanted("running", "1", Some("x"), "n"), Wanted("running", "2", Some("y"), "n");
            var w1 := After(ROOT, w, CrashBeforeRecord(ROOT, w, d2, WORKS));
            var t := Reconcile(ROOT, w1, d1, WORKS);
            && Honest(w) && w.current == Some("1")
            && t.result.finalState == Running && t.result.activeVersion == Some("1") && !t.result.changed
            && t.machine.world.current == Some("2")
  {
    w := TwoVersions(RunningRecord("1", None, Some("x")), "1");
    FirstSettled(w);
    Acts(w, "2", Some("y"));
    RevertAfterCrash(ROOT, w, Wanted("running", "1", Some("x"), "n"), Wanted("running", "2", Some("y"), "n"), WORKS, WORKS, []);
  }

  /** Version 2 runs after version 1; a start of version 1 crashes; version 2 is started again and no event tells of it. */
  lemma UpdateLostHappens() returns (w: World)
    ensures var u, v := Wanted("running", "1", None, "n"), Wanted("running", "2", None, "n");
            var w1 := After(ROOT, w, CrashBeforeRecord(ROOT, w, u, WORKS));
            var t := Reconcile(ROOT, w1, v, WORKS);
            && Honest(w) && w.current == Some("2")
            && w1.current == Some("1") && t.machine.world.current == Some("2") && Emitted(t.result).None?
  {
    w := TwoVersions(RunningRecord("2", Some("1"), None), "2");
    UpdateLostFrom(w);
  }

  lemma SecondActs(w: World, w': World)
    requires w == TwoVersions(RunningRecord("2", Some("1"), None), "2")
    requires w'.runtime == w.runtime && w.versions.Keys <= w'.versions.Keys && TickSafety.SameArtifacts(w, w')
    ensures Starts(ROOT, w', Wanted("running", "2", None, "n"), WORKS)
  {
    assert "2" in w.versions.Keys;
    Acts(w', "2", None);
  }

  lemma UpdateLostFrom(w: World)
    requires w == TwoVersions(RunningRecord("2", Some("1"), None), "2")
    ensures var u, v := Wanted("running", "1", None, "n"), Wanted("running", "2", None, "n");
            var w1 := After(ROOT, w, CrashBeforeRecord(ROOT, w, u, WORKS));
            var t := Reconcile(ROOT, w1, v, WORKS);
            w1.current == Some("1") && t.machine.world.current == Some("2") && Emitted(t.result).None?
  {
    var u, v := Wanted("running", "1", None, "n"), Wanted("running", "2", None, "n");
    Acts(w, "1", None);
    CrashLeaves(ROOT, w, u, WORKS);
    StartKeepsRecord(ROOT, w, u, WORKS);
    SecondActs(w, After(ROOT, w, CrashBeforeRecord(ROOT, w, u, WORKS)));
    UpdateLostAfterCrash(ROOT, w, u, WORKS, v, WORKS);
  }
}
