/**
 * The watcher process, step by step: a host whose files, directories and
 * issued shell commands are changed in place by the collection step, the
 * trigger block with its early returns and `forEach` loops, one `instance`
 * cycle, and the top-level loop over the watchers in configuration order.
 * Each method is proved against its reference definition in `Artifacts`,
 * `Dispatch` and `Cycle`.
 */
module Driver {
  import opened Js
  import opened Config
  import opened Artifacts
  import opened Dispatch
  import opened Cycle

  /** Moving the `i`-th command from the pending part to the issued part. */
  lemma TakeOneMore(cmds: seq<Command>, i: nat, rest: seq<Command>)
    requires i < |cmds|
    ensures cmds[..i] + ([cmds[i]] + rest) == cmds[..i + 1] + rest
  {
    assert cmds[..i + 1] == cmds[..i] + [cmds[i]];
  }

  class Host {
    var files: Files
    var dirs: set<string>
    var commands: seq<Command>

    /** The host's state as a value. */
    function State(): Machine
      reads this
    {
      Machine(files, dirs, commands)
    }

    constructor (files0: Files, dirs0: set<string>)
      ensures State() == Machine(files0, dirs0, [])
    {
      files, dirs, commands := files0, dirs0, [];
    }

    /** `mkdirSync(dir, { recursive: true })`. */
    method MakeDir(dir: string)
      modifies this
      ensures State() == old(State()).(dirs := old(dirs) + {dir})
    {
      dirs := dirs + {dir};
    }

    /** `execSync(cmd)`: the command is issued; `ok` is false when it throws. */
    method Exec(cmd: Command, rejects: Command -> bool) returns (ok: bool)
      modifies this
      ensures State() == old(State()).(commands := old(commands) + [cmd])
      ensures ok == !rejects(cmd)
    {
      commands := commands + [cmd];
      ok := !rejects(cmd);
    }

    /** `execSync(`touch "${marker}"`)`. */
    method Touch(marker: string, rejects: Command -> bool) returns (ok: bool)
      modifies this
      ensures ok == !rejects(TouchMarker(marker))
      ensures commands == old(commands) + [TouchMarker(marker)]
      ensures files == if ok then Touched(old(files), marker) else old(files)
      ensures dirs == old(dirs)
    {
      ok := Exec(TouchMarker(marker), rejects);
      if ok && marker !in files {
        files := files[marker := []];
      }
    }

    /** `cmds.forEach(execSync)`: stops at the first command that throws. */
    method ExecEach(cmds: seq<Command>, rejects: Command -> bool) returns (ok: bool)
      modifies this
      ensures commands == old(commands) + Execute(cmds, rejects).issued
      ensures ok == Execute(cmds, rejects).ok
      ensures files == old(files) && dirs == old(dirs)
    {
      var i := 0;
      while i < |cmds|
        invariant 0 <= i <= |cmds|
        invariant Execute(cmds, rejects) ==
          Executed(cmds[..i] + Execute(cmds[i..], rejects).issued, Execute(cmds[i..], rejects).ok)
        invariant commands == old(commands) + cmds[..i]
        invariant files == old(files) && dirs == old(dirs)
      {
        ExecuteFrom(cmds, i, rejects);
        ok := Exec(cmds[i], rejects);
        if !ok {
          TakeOneMore(cmds, i, []);
          return;
        }
        TakeOneMore(cmds, i, Execute(cmds[i + 1..], rejects).issued);
        i := i + 1;
      }
      assert cmds[..i] == cmds && cmds[i..] == [];
      ok := true;
    }

    /**
     * The collection step (`scrape`): the text probe, or the screenshot
     * bootstrap / comparison with the base rotation on a difference.
     */
    method Scrape(w: Watcher, s: Settings, page: Page, compare: (Bytes, Bytes) -> PixelDiff) returns (v: Verdict)
      modifies this
      ensures Scraped(files, v) == ScrapeSpec(old(files), w, s, page, compare)
      ensures dirs == old(dirs) && commands == old(commands)
    {
      if !page.loads {
        return Threw;
      }
      if s.useScreenshotComparison {
        var base, oldBase := BasePath(w.name), OldBasePath(w.name);
        var latest, diff := LatestPath(w.name), DiffPath(w.name);
        if base !in files {
          files := files[base := page.shot];
          return Met;
        }
        var outcome := compare(files[base], page.shot);
        if outcome.BaseUnreadable? {
          return Threw;
        }
        files := files[latest := page.shot];
        if outcome.SizeMismatch? {
          return Threw;
        }
        files := files[diff := outcome.image];
        if outcome.pixels > 0 {
          files := files[oldBase := files[base]];
          files := files[base := files[latest]];
          return Met;
        }
        return NotMet;
      }
      var met := TextCondition(ProbeFlag(w), page.textVisible);
      if s.takeScreenshot {
        files := files[PageShotPath(w.name, met) := page.shot];
      }
      v := if met then Met else NotMet;
    }

    /**
     * The trigger block of a met cycle: touch the marker, then the rest of
     * the dispatch; a command that throws ends the block.
     */
    method Trigger(d: Defaults, w: Watcher, s: Settings, marker: string, rejects: Command -> bool) returns (ok: bool)
      modifies this
      ensures Step(State(), ok) == TriggerSpec(old(State()), d, w, s, marker, rejects)
    {
      var touch := TouchMarker(marker);
      ExecuteCons(touch, NotifierStage(d, w, s), rejects);
      ok := Touch(marker, rejects);
      if !ok {
        return;
      }
      ok := Notify(d, w, s, rejects);
      AppendAssoc(old(commands), [touch], Execute(NotifierStage(d, w, s), rejects).issued);
    }

    /**
     * The notification when the notifier is on, returning early when its
     * path is not configured, then the SMS and the actions.
     */
    method Notify(d: Defaults, w: Watcher, s: Settings, rejects: Command -> bool) returns (ok: bool)
      modifies this
      ensures commands == old(commands) + Execute(NotifierStage(d, w, s), rejects).issued
      ensures ok == Execute(NotifierStage(d, w, s), rejects).ok
      ensures files == old(files) && dirs == old(dirs)
    {
      NotifierStageCases(d, w, s);
      if s.useTerminalNotifier {
        if !TruthyString(d.terminalNotifierPath) {
          assert commands == old(commands) + [];
          return true;
        }
        var notify := Notification(d.terminalNotifierPath.value, s, w);
        ExecuteCons(notify, SmsStage(d, w), rejects);
        ok := Exec(notify, rejects);
        if !ok {
          return;
        }
        ok := SendSmsAndAct(d, w, rejects);
        AppendAssoc(old(commands), [notify], Execute(SmsStage(d, w), rejects).issued);
      } else {
        ok := SendSmsAndAct(d, w, rejects);
      }
    }

    /**
     * One SMS per phone number, returning early when the SMS path is not
     * configured, then the actions (both `forEach` loops).
     */
    method SendSmsAndAct(d: Defaults, w: Watcher, rejects: Command -> bool) returns (ok: bool)
      modifies this
      ensures commands == old(commands) + Execute(SmsStage(d, w), rejects).issued
      ensures ok == Execute(SmsStage(d, w), rejects).ok
      ensures files == old(files) && dirs == old(dirs)
    {
      SmsStageCases(d, w);
      var actions := ActionCommands(d, w);
      if SmsWanted(d) {
        if !TruthyString(d.smsPath) {
          assert commands == old(commands) + [];
          return true;
        }
        var sms := SmsCommands(d.smsPath.value, d.sendSms.value, w);
        ExecuteAppend(sms, actions, rejects);
        ExecuteStopsAtFirstRejection(sms, rejects);
        ok := ExecEach(sms, rejects);
        if !ok {
          return;
        }
        ok := ExecEach(actions, rejects);
        AppendAssoc(old(commands), sms, Execute(actions, rejects).issued);
      } else {
        ok := ExecEach(actions, rejects);
      }
    }

    /** One watcher cycle (`instance`): directory, dedup gate, collection, trigger. */
    method Instance(d: Defaults, w: Watcher, page: Page, compare: (Bytes, Bytes) -> PixelDiff,
                    date: string, rejects: Command -> bool) returns (ok: bool)
      modifies this
      ensures Step(State(), ok) == CycleSpec(old(State()), d, w, page, compare, date, rejects)
    {
      var s := Overlay(d, w);
      var marker := MarkerPath(w.name, date);
      MakeDir(DataDir(w.name));
      if marker in files && !s.ignoreFoundFile {
        return true;
      }
      var verdict := Scrape(w, s, page, compare);
      if verdict == Met {
        ok := Trigger(d, w, s, marker, rejects);
      } else {
        ok := true;
      }
    }

    /**
     * The top-level loop: every watcher in configuration order, each cycle
     * finished before the next starts; an error thrown by a cycle ends the
     * loop.
     */
    method Run(cfg: Configuration, world: World) returns (ok: bool)
      modifies this
      ensures Step(State(), ok) == RunUpTo(old(State()), Cycles(cfg, world), |cfg.watchers|)
    {
      ghost var m0 := State();
      var i := 0;
      while i < |cfg.watchers|
        invariant 0 <= i <= |cfg.watchers|
        invariant RunUpTo(m0, Cycles(cfg, world), i) == Step(State(), true)
      {
        ghost var before := State();
        ok := Instance(cfg.defaults, cfg.watchers[i], world.pages(i), world.compare, world.date, world.rejects);
        RunAdvance(m0, cfg, world, i, before, Step(State(), ok));
        if !ok {
          return;
        }
        i := i + 1;
      }
      ok := true;
    }
  }
}
