/**
 * One watcher cycle and one run over all watchers, as functions of the
 * machine state (files, directories, issued commands): the reference
 * definitions the imperative driver is proved against, and the properties
 * of a cycle (dedup, isolation of collection errors) and of a run (order).
 */
module Cycle {
  import opened Js
  import opened Config
  import opened Artifacts
  import opened Dispatch

  /** Everything a run changes: files, directories and the commands issued so far. */
  datatype Machine = Machine(files: Files, dirs: set<string>, commands: seq<Command>)

  /** The outside world of one run, seen from the model. */
  datatype World = World(
    pages: nat -> Page,                    // what the browser yields for the i-th watcher
    compare: (Bytes, Bytes) -> PixelDiff,  // the pixel comparator
    date: string,                          // the local date string
    rejects: Command -> bool)              // the commands the shell exits non-zero for

  /** The state after a cycle (or a run), and whether it ended normally rather than by a thrown error. */
  datatype Step = Step(machine: Machine, completed: bool)

  /** `touch` creates the marker as an empty file when it is missing and leaves an existing one as it is. */
  function Touched(files: Files, marker: string): Files {
    if marker in files then files else files[marker := []]
  }

  /** A met verdict: the dispatch plan is run through the shell, starting with the marker's `touch`. */
  function TriggerSpec(m: Machine, d: Defaults, w: Watcher, s: Settings, marker: string, rejects: Command -> bool): Step {
    var run := Execute(Plan(d, w, s, marker), rejects);
    var files := if rejects(TouchMarker(marker)) then m.files else Touched(m.files, marker);
    Step(Machine(files, m.dirs, m.commands + run.issued), run.ok)
  }

  /** One cycle of watcher `w` (the `instance` function). */
  function CycleSpec(m: Machine, d: Defaults, w: Watcher, page: Page, compare: (Bytes, Bytes) -> PixelDiff,
                     date: string, rejects: Command -> bool): Step
  {
    var s := Overlay(d, w);
    var marker := MarkerPath(w.name, date);
    var m1 := m.(dirs := m.dirs + {DataDir(w.name)});
    if marker in m1.files && !s.ignoreFoundFile then Step(m1, true)
    else
      var scraped := ScrapeSpec(m1.files, w, s, page, compare);
      var m2 := m1.(files := scraped.files);
      if scraped.verdict == Met then TriggerSpec(m2, d, w, s, marker, rejects)
      else Step(m2, true)
  }

  /**
   * The cycle of the `k`-th watcher of the configuration, as a function of
   * the machine state it starts from (indices past the last watcher are
   * never run and leave the state as it is).
   */
  function Cycles(cfg: Configuration, world: World): (Machine, nat) -> Step {
    (m: Machine, k: nat) =>
      if k < |cfg.watchers| then
        CycleSpec(m, cfg.defaults, cfg.watchers[k], world.pages(k), world.compare, world.date, world.rejects)
      else Step(m, true)
  }

  lemma CyclesAt(cfg: Configuration, world: World, m: Machine, k: nat)
    requires k < |cfg.watchers|
    ensures Cycles(cfg, world)(m, k) ==
      CycleSpec(m, cfg.defaults, cfg.watchers[k], world.pages(k), world.compare, world.date, world.rejects)
  {
  }

  /** The first `n` cycles run in order, each on the outcome of the last; a thrown error ends the run. */
  function RunUpTo(m0: Machine, cycle: (Machine, nat) -> Step, n: nat): Step {
    if n == 0 then Step(m0, true)
    else
      var prev := RunUpTo(m0, cycle, n - 1);
      if !prev.completed then prev
      else cycle(prev.machine, n - 1)
  }

  /**
   * Dedup gate: with today's marker present and no bypass, the cycle only
   * ensures the watcher's directory exists; no file is written, nothing is
   * issued.
   */
  lemma DedupGate(m: Machine, d: Defaults, w: Watcher, page: Page, compare: (Bytes, Bytes) -> PixelDiff,
                  date: string, rejects: Command -> bool)
    requires MarkerPath(w.name, date) in m.files && !Overlay(d, w).ignoreFoundFile
    ensures CycleSpec(m, d, w, page, compare, date, rejects) ==
      Step(Machine(m.files, m.dirs + {DataDir(w.name)}, m.commands), true)
  {
  }

  /**
   * A cycle that is not met (not met, or a caught collection error) writes
   * no marker and issues no command.
   */
  lemma NoTriggerNoCommands(m: Machine, d: Defaults, w: Watcher, page: Page, compare: (Bytes, Bytes) -> PixelDiff,
                            date: string, rejects: Command -> bool)
    requires ScrapeSpec(m.files, w, Overlay(d, w), page, compare).verdict != Met
    ensures var r := CycleSpec(m, d, w, page, compare, date, rejects);
      && r.completed
      && r.machine.commands == m.commands
      && r.machine.files == (if MarkerPath(w.name, date) in m.files && !Overlay(d, w).ignoreFoundFile then m.files
                             else ScrapeSpec(m.files, w, Overlay(d, w), page, compare).files)
  {
  }

  /**
   * A met cycle issues exactly what the shell runs of the dispatch plan,
   * whose first command touches today's marker; the marker exists afterwards
   * unless that touch was rejected.
   */
  lemma MetCycleDispatches(m: Machine, d: Defaults, w: Watcher, page: Page, compare: (Bytes, Bytes) -> PixelDiff,
                           date: string, rejects: Command -> bool)
    requires !(MarkerPath(w.name, date) in m.files && !Overlay(d, w).ignoreFoundFile)
    requires ScrapeSpec(m.files, w, Overlay(d, w), page, compare).verdict == Met
    ensures var r := CycleSpec(m, d, w, page, compare, date, rejects);
      var marker := MarkerPath(w.name, date);
      var run := Execute(Plan(d, w, Overlay(d, w), marker), rejects);
      && r.machine.commands == m.commands + run.issued
      && r.completed == run.ok
      && |run.issued| >= 1 && run.issued[0] == TouchMarker(marker)
      && (!rejects(TouchMarker(marker)) ==> marker in r.machine.files)
  {
    var marker := MarkerPath(w.name, date);
    var plan := Plan(d, w, Overlay(d, w), marker);
    var run := Execute(plan, rejects);
    assert plan[0] == TouchMarker(marker);
    assert |plan| >= 1;
    if rejects(plan[0]) {
      assert !run.ok;
    }
  }

  /**
   * Dedup idempotence: a met cycle without bypass whose marker `touch` is
   * accepted makes the next cycle on the same date, whatever it observes,
   * change no file and issue nothing.
   */
  lemma DedupIdempotent(m: Machine, d: Defaults, w: Watcher, page1: Page, page2: Page,
                        compare: (Bytes, Bytes) -> PixelDiff, date: string, rejects: Command -> bool)
    requires !Overlay(d, w).ignoreFoundFile
    requires MarkerPath(w.name, date) !in m.files
    requires ScrapeSpec(m.files, w, Overlay(d, w), page1, compare).verdict == Met
    requires !rejects(TouchMarker(MarkerPath(w.name, date)))
    ensures var first := CycleSpec(m, d, w, page1, compare, date, rejects).machine;
      var second := CycleSpec(first, d, w, page2, compare, date, rejects).machine;
      && |first.commands| > |m.commands|
      && second.files == first.files && second.commands == first.commands
  {
    var first := CycleSpec(m, d, w, page1, compare, date, rejects).machine;
    MetCycleDispatches(m, d, w, page1, compare, date, rejects);
    DedupGate(first, d, w, page2, compare, date, rejects);
  }

  /**
   * A page that fails to load is contained in its cycle: the cycle
   * completes, changes no file and issues nothing, so the run goes on to
   * the next watcher. (Any other throw inside the collection step is covered
   * by `NoTriggerNoCommands`: it may have written files, but issues nothing.)
   */
  lemma CollectionErrorContained(m: Machine, d: Defaults, w: Watcher, page: Page,
                                 compare: (Bytes, Bytes) -> PixelDiff, date: string, rejects: Command -> bool)
    requires !page.loads
    ensures var r := CycleSpec(m, d, w, page, compare, date, rejects);
      r == Step(Machine(m.files, m.dirs + {DataDir(w.name)}, m.commands), true)
  {
  }

  /** After a run that completed over the first `i` cycles, the next one runs on its outcome. */
  lemma RunNext(m0: Machine, cycle: (Machine, nat) -> Step, i: nat)
    requires RunUpTo(m0, cycle, i).completed
    ensures RunUpTo(m0, cycle, i + 1) == cycle(RunUpTo(m0, cycle, i).machine, i)
  {
  }

  /** Once a cycle has thrown, the later cycles are not run. */
  lemma {:induction false} RunStops(m0: Machine, cycle: (Machine, nat) -> Step, i: nat, n: nat)
    requires i <= n
    requires !RunUpTo(m0, cycle, i).completed
    ensures RunUpTo(m0, cycle, n) == RunUpTo(m0, cycle, i)
    decreases n - i
  {
    if i < n {
      RunStops(m0, cycle, i, n - 1);
    }
  }

  /** `a` is a prefix of `b`. */
  predicate IsPrefix(a: seq<Command>, b: seq<Command>) {
    |a| <= |b| && b[..|a|] == a
  }

  lemma PrefixTrans(a: seq<Command>, b: seq<Command>, c: seq<Command>)
    requires IsPrefix(a, b) && IsPrefix(b, c)
    ensures IsPrefix(a, c)
  {
    assert c[..|a|] == c[..|b|][..|a|];
  }

  /** Every cycle only appends to the issued commands. */
  ghost predicate Appends(cycle: (Machine, nat) -> Step) {
    forall m: Machine, k: nat :: IsPrefix(m.commands, cycle(m, k).machine.commands)
  }

  /**
   * Order: when every cycle only appends, the commands issued by the first
   * `i` cycles are a prefix of those issued by the first `n`.
   */
  lemma {:induction false} RunOrder(m0: Machine, cycle: (Machine, nat) -> Step, i: nat, n: nat)
    requires i <= n && Appends(cycle)
    ensures IsPrefix(RunUpTo(m0, cycle, i).machine.commands, RunUpTo(m0, cycle, n).machine.commands)
    decreases n - i
  {
    if i < n {
      RunOrder(m0, cycle, i, n - 1);
      var prev := RunUpTo(m0, cycle, n - 1);
      if prev.completed {
        assert IsPrefix(prev.machine.commands, cycle(prev.machine, n - 1).machine.commands);
        PrefixTrans(RunUpTo(m0, cycle, i).machine.commands, prev.machine.commands,
                    RunUpTo(m0, cycle, n).machine.commands);
      }
    }
  }

  /** The watchers' cycles only append, so a run issues its commands in configuration order. */
  lemma CyclesAppend(cfg: Configuration, world: World)
    ensures Appends(Cycles(cfg, world))
  {
    forall m: Machine, k: nat
      ensures IsPrefix(m.commands, Cycles(cfg, world)(m, k).machine.commands)
    {
      if k < |cfg.watchers| {
        CycleExtendsCommands(m, cfg.defaults, cfg.watchers[k], world.pages(k), world.compare, world.date, world.rejects);
      } else {
        assert m.commands[..|m.commands|] == m.commands;
      }
    }
  }

  /** A cycle only ever appends to the issued commands, and only adds files and directories. */
  lemma CycleExtendsCommands(m: Machine, d: Defaults, w: Watcher, page: Page,
                             compare: (Bytes, Bytes) -> PixelDiff, date: string, rejects: Command -> bool)
    ensures var r := CycleSpec(m, d, w, page, compare, date, rejects).machine;
      && IsPrefix(m.commands, r.commands)
      && m.files.Keys <= r.files.Keys
      && m.dirs + {DataDir(w.name)} == r.dirs
  {
    var s := Overlay(d, w);
    var marker := MarkerPath(w.name, date);
    if !(marker in m.files && !s.ignoreFoundFile) {
      ScrapeKeepsFiles(m.files, w, s, page, compare);
      var run := Execute(Plan(d, w, s, marker), rejects);
      assert (m.commands + run.issued)[..|m.commands|] == m.commands;
    }
  }

  /**
   * The loop over the watchers, one step: a run completed over the first
   * `i` watchers, then watcher `i`'s cycle; a cycle that throws is the
   * outcome of the whole run.
   */
  lemma RunAdvance(m0: Machine, cfg: Configuration, world: World, i: nat, m: Machine, r: Step)
    requires i < |cfg.watchers| && RunUpTo(m0, Cycles(cfg, world), i) == Step(m, true)
    requires r == CycleSpec(m, cfg.defaults, cfg.watchers[i], world.pages(i), world.compare, world.date, world.rejects)
    ensures RunUpTo(m0, Cycles(cfg, world), i + 1) == r
    ensures !r.completed ==> RunUpTo(m0, Cycles(cfg, world), |cfg.watchers|) == r
  {
    RunNext(m0, Cycles(cfg, world), i);
    CyclesAt(cfg, world, m, i);
    if !r.completed {
      RunStops(m0, Cycles(cfg, world), i + 1, |cfg.watchers|);
    }
  }

  /**
   * Failure isolation: when watcher `k`'s page fails to load, the run over
   * the first `k + 1` watchers still completes with the same files and
   * commands as over the first `k`.
   */
  lemma CollectionErrorInRun(m0: Machine, cfg: Configuration, world: World, k: nat)
    requires k < |cfg.watchers|
    requires RunUpTo(m0, Cycles(cfg, world), k).completed && !world.pages(k).loads
    ensures var before := RunUpTo(m0, Cycles(cfg, world), k).machine;
      var after := RunUpTo(m0, Cycles(cfg, world), k + 1);
      && after.completed
      && after.machine.files == before.files
      && after.machine.commands == before.commands
  {
    var before := RunUpTo(m0, Cycles(cfg, world), k);
    CyclesAt(cfg, world, before.machine, k);
    CollectionErrorContained(before.machine, cfg.defaults, cfg.watchers[k], world.pages(k),
                             world.compare, world.date, world.rejects);
  }
}
