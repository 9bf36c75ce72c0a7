/**
 * What a met verdict dispatches: the found marker, the desktop
 * notification, one SMS per phone number and the configured actions, in
 * that order, cut short when a needed path is not configured; and what the
 * shell issues of such a list when a command fails.
 */
module Dispatch {
  import opened Js
  import opened Config

  /** `str.replace('%URL%', url).replace('%NAME%', name)`: first occurrences only. */
  function ReplaceVariables(str: string, url: string, name: string): string {
    Replace(Replace(str, "%URL%", url), "%NAME%", name)
  }

  /** One action as the command line it runs. */
  function RenderAction(a: Action, url: string, name: string): string {
    match a
    case Line(command) => ReplaceVariables(command, url, name)
    case Words(words) => ReplaceVariables(Join(words, " "), url, name)
  }

  /**
   * The watcher's actions when it lists at least one, otherwise the default
   * actions, otherwise none.
   */
  function ResolveActions(d: Defaults, w: Watcher): (r: seq<Action>)
    ensures w.actions.Some? && w.actions.value != [] ==> r == w.actions.value
    ensures (w.actions.None? || w.actions.value == []) && d.defaultActions.Some? ==> r == d.defaultActions.value
    ensures (w.actions.None? || w.actions.value == []) && d.defaultActions.None? ==> r == []
  {
    if w.actions.Some? && |w.actions.value| > 0 then w.actions.value
    else if d.defaultActions.Some? then d.defaultActions.value
    else []
  }

  /** One command per action, in order. */
  function ActionRuns(actions: seq<Action>, url: string, name: string): (r: seq<Command>)
    ensures |r| == |actions|
    ensures forall k :: 0 <= k < |actions| ==> r[k] == RunAction(actions[k], url, name)
  {
    if actions == [] then []
    else [RunAction(actions[0], url, name)] + ActionRuns(actions[1..], url, name)
  }

  /** The resolved actions as commands, in configuration order. */
  function ActionCommands(d: Defaults, w: Watcher): seq<Command> {
    ActionRuns(ResolveActions(d, w), w.url, w.name)
  }

  /** The `text` of the watcher's probe, as a template literal renders it (`undefined` when absent). */
  function ProbeText(w: Watcher): string {
    if w.waitForText.Some? then w.waitForText.value.text else "undefined"
  }

  /** The notification subtitle: by mode, then by the expected presence of the text. */
  function Subtitle(s: Settings, w: Watcher): (r: string)
    ensures s.useScreenshotComparison || w.screenshot.Some? ==> r == "Screenshot diff"
    ensures !s.useScreenshotComparison && w.screenshot.None? && w.waitForText.Some? && IsTrue(w.waitForText.value.isPresent) ==>
      r == "Found the text: '" + ProbeText(w) + "'"
    ensures !s.useScreenshotComparison && w.screenshot.None? && !(w.waitForText.Some? && IsTrue(w.waitForText.value.isPresent)) ==>
      r == "Did not find the text: '" + ProbeText(w) + "'"
  {
    if s.useScreenshotComparison || w.screenshot.Some? then "Screenshot diff"
    else if w.waitForText.Some? && IsTrue(w.waitForText.value.isPresent) then "Found the text: '" + ProbeText(w) + "'"
    else "Did not find the text: '" + ProbeText(w) + "'"
  }

  /** One `execSync` call of the trigger block, by what it runs; `Text` gives its command line. */
  datatype Command =
    | TouchMarker(marker: string)
    | Notification(notifierPath: string, s: Settings, w: Watcher)
    | Sms(smsPath: string, phone: string, w: Watcher)
    | RunAction(action: Action, url: string, name: string)

  /** The command line passed to the shell: the notifier's and the SMS tool's parts joined with single spaces. */
  function Text(c: Command): string {
    match c
    case TouchMarker(marker) => "touch \"" + marker + "\""
    case Notification(path, s, w) =>
      path + " -title \"Covid Alert! [" + w.name + "]\"" + " -subtitle \"" + Subtitle(s, w) + "\""
        + " -sound sosumi" + " -open \"" + w.url + "\""
    case Sms(smsPath, phone, w) =>
      smsPath + " " + phone + " \"Book a vaccine appointment! [" + w.name + "] " + w.url + "\""
    case RunAction(action, url, name) => RenderAction(action, url, name)
  }

  /** Phone numbers are configured (`sendSms?.length` is truthy). */
  predicate SmsWanted(d: Defaults) {
    d.sendSms.Some? && d.sendSms.value != []
  }

  /** The notifier is on but its path is not configured: the cycle stops after the marker. */
  predicate NotifierMisconfigured(d: Defaults, s: Settings) {
    s.useTerminalNotifier && !TruthyString(d.terminalNotifierPath)
  }

  /** Phones are listed but the SMS tool's path is not configured: the cycle stops before the SMS. */
  predicate SmsMisconfigured(d: Defaults) {
    SmsWanted(d) && !TruthyString(d.smsPath)
  }

  /** The notification command, when the notifier is on and configured. */
  function NotifierPart(d: Defaults, s: Settings, w: Watcher): seq<Command> {
    if s.useTerminalNotifier && TruthyString(d.terminalNotifierPath)
    then [Notification(d.terminalNotifierPath.value, s, w)] else []
  }

  /** One SMS command per phone number, in list order. */
  function SmsCommands(smsPath: string, phones: seq<string>, w: Watcher): (r: seq<Command>)
    ensures |r| == |phones|
    ensures forall k :: 0 <= k < |phones| ==> r[k] == Sms(smsPath, phones[k], w)
  {
    if phones == [] then []
    else [Sms(smsPath, phones[0], w)] + SmsCommands(smsPath, phones[1..], w)
  }

  /** The SMS commands, when phones and the SMS path are configured. */
  function SmsPart(d: Defaults, w: Watcher): seq<Command> {
    if SmsWanted(d) && TruthyString(d.smsPath) then SmsCommands(d.smsPath.value, d.sendSms.value, w) else []
  }

  /** What follows the notification: the SMS and then the actions, or nothing when the SMS path is missing. */
  function SmsStage(d: Defaults, w: Watcher): seq<Command> {
    if SmsMisconfigured(d) then [] else SmsPart(d, w) + ActionCommands(d, w)
  }

  /** What follows the marker: the notification and the rest, or nothing when the notifier path is missing. */
  function NotifierStage(d: Defaults, w: Watcher, s: Settings): seq<Command> {
    if NotifierMisconfigured(d, s) then [] else NotifierPart(d, s, w) + SmsStage(d, w)
  }

  /** The notification stage, case by case as the trigger block tests it. */
  lemma NotifierStageCases(d: Defaults, w: Watcher, s: Settings)
    ensures NotifierStage(d, w, s) ==
      if NotifierMisconfigured(d, s) then []
      else if s.useTerminalNotifier then [Notification(d.terminalNotifierPath.value, s, w)] + SmsStage(d, w)
      else SmsStage(d, w)
  {
    if !s.useTerminalNotifier {
      assert NotifierPart(d, s, w) + SmsStage(d, w) == SmsStage(d, w);
    }
  }

  /** The SMS stage, case by case as the trigger block tests it. */
  lemma SmsStageCases(d: Defaults, w: Watcher)
    ensures SmsStage(d, w) ==
      if SmsMisconfigured(d) then []
      else if SmsWanted(d) then SmsCommands(d.smsPath.value, d.sendSms.value, w) + ActionCommands(d, w)
      else ActionCommands(d, w)
  {
    if !SmsWanted(d) {
      assert SmsPart(d, w) + ActionCommands(d, w) == ActionCommands(d, w);
    }
  }

  lemma AppendAssoc(a: seq<Command>, b: seq<Command>, c: seq<Command>)
    ensures a + b + c == a + (b + c)
  {
  }

  /** Every command a met verdict dispatches: the marker's `touch` first, then the rest. */
  function Plan(d: Defaults, w: Watcher, s: Settings, marker: string): (r: seq<Command>)
    ensures |r| >= 1 && r[0] == TouchMarker(marker)
  {
    [TouchMarker(marker)] + NotifierStage(d, w, s)
  }

  /**
   * Dispatch order: the marker, the notification, one SMS per phone and the
   * actions; a missing notifier path stops everything after the marker, a
   * missing SMS path everything after the notification.
   */
  lemma DispatchOrder(d: Defaults, w: Watcher, s: Settings, marker: string)
    ensures NotifierMisconfigured(d, s) ==> Plan(d, w, s, marker) == [TouchMarker(marker)]
    ensures !NotifierMisconfigured(d, s) && SmsMisconfigured(d) ==>
      Plan(d, w, s, marker) == [TouchMarker(marker)] + NotifierPart(d, s, w)
    ensures !NotifierMisconfigured(d, s) && !SmsMisconfigured(d) ==>
      Plan(d, w, s, marker) == [TouchMarker(marker)] + NotifierPart(d, s, w) + SmsPart(d, w) + ActionCommands(d, w)
  {
    var t, n, sms, a := [TouchMarker(marker)], NotifierPart(d, s, w), SmsPart(d, w), ActionCommands(d, w);
    if NotifierMisconfigured(d, s) {
      assert NotifierStage(d, w, s) == [];
      assert t + [] == t;
    } else if SmsMisconfigured(d) {
      assert NotifierStage(d, w, s) == n + [];
      assert n + [] == n;
    } else {
      assert NotifierStage(d, w, s) == n + (sms + a);
      AppendAssoc(t, n, sms + a);
      AppendAssoc(t + n, sms, a);
    }
  }

  /** What the shell ran of a command list, and whether every command succeeded. */
  datatype Executed = Executed(issued: seq<Command>, ok: bool)

  /**
   * Running `cmds` one after the other with `execSync`: a command that the
   * shell rejects throws, so it is the last one issued.
   */
  function Execute(cmds: seq<Command>, rejects: Command -> bool): Executed
  {
    if cmds == [] then Executed([], true)
    else if rejects(cmds[0]) then Executed([cmds[0]], false)
    else
      var rest := Execute(cmds[1..], rejects);
      Executed([cmds[0]] + rest.issued, rest.ok)
  }

  /**
   * The shell gets every command up to and including the first one it
   * rejects; the list succeeds exactly when it rejects none.
   */
  lemma {:induction false} ExecuteStopsAtFirstRejection(cmds: seq<Command>, rejects: Command -> bool)
    ensures var r := Execute(cmds, rejects);
      && |r.issued| <= |cmds| && r.issued == cmds[..|r.issued|]
      && (r.ok ==> r.issued == cmds)
      && (r.ok <==> forall k :: 0 <= k < |cmds| ==> !rejects(cmds[k]))
      && (!r.ok ==> |r.issued| >= 1 && rejects(r.issued[|r.issued| - 1]))
      && (forall k :: 0 <= k < |r.issued| - 1 ==> !rejects(r.issued[k]))
    decreases |cmds|
  {
    if cmds != [] && !rejects(cmds[0]) {
      ExecuteStopsAtFirstRejection(cmds[1..], rejects);
      var rest := Execute(cmds[1..], rejects);
      var r := Execute(cmds, rejects);
      assert r.issued == [cmds[0]] + rest.issued;
      assert cmds == [cmds[0]] + cmds[1..];
      assert forall k :: 0 < k < |cmds| ==> cmds[k] == cmds[1..][k - 1];
      assert forall k :: 0 < k < |r.issued| ==> r.issued[k] == rest.issued[k - 1];
    }
  }

  /** Running a list that starts with `c`: `c`, then the rest unless `c` was rejected. */
  lemma ExecuteCons(c: Command, rest: seq<Command>, rejects: Command -> bool)
    ensures Execute([c] + rest, rejects) ==
      if rejects(c) then Executed([c], false)
      else Executed([c] + Execute(rest, rejects).issued, Execute(rest, rejects).ok)
  {
    assert ([c] + rest)[0] == c && ([c] + rest)[1..] == rest;
  }

  /** Running the commands from position `i` on: the `i`-th, then the rest unless it was rejected. */
  lemma ExecuteFrom(cmds: seq<Command>, i: nat, rejects: Command -> bool)
    requires i < |cmds|
    ensures Execute(cmds[i..], rejects) ==
      if rejects(cmds[i]) then Executed([cmds[i]], false)
      else Executed([cmds[i]] + Execute(cmds[i + 1..], rejects).issued, Execute(cmds[i + 1..], rejects).ok)
  {
    assert cmds[i..][0] == cmds[i] && cmds[i..][1..] == cmds[i + 1..];
  }

  /** Running `a + b` is running `a`, then, if all of `a` succeeded, running `b`. */
  lemma {:induction false} ExecuteAppend(a: seq<Command>, b: seq<Command>, rejects: Command -> bool)
    ensures Execute(a + b, rejects) ==
      if Execute(a, rejects).ok then Executed(a + Execute(b, rejects).issued, Execute(b, rejects).ok)
      else Execute(a, rejects)
    decreases |a|
  {
    if a == [] {
      assert a + b == b;
    } else {
      var ab := a + b;
      assert ab[0] == a[0] && ab[1..] == a[1..] + b;
      if !rejects(a[0]) {
        ExecuteAppend(a[1..], b, rejects);
        var eb := Execute(b, rejects);
        var ea := Execute(a[1..], rejects);
        assert Execute(ab, rejects) == Executed([a[0]] + Execute(a[1..] + b, rejects).issued, Execute(a[1..] + b, rejects).ok);
        assert Execute(a, rejects) == Executed([a[0]] + ea.issued, ea.ok);
        assert [a[0]] + (a[1..] + eb.issued) == a + eb.issued;
      }
    }
  }

  /** Past a `%` not followed by `U`, the search for `%URL%` reaches the one after `mid`. */
  lemma UrlAfterPercent(mid: string, post: string)
    requires '%' !in mid && (mid == [] || mid[0] != 'U')
    ensures IndexOf("%" + mid + "%URL%" + post, "%URL%") == Some(1 + |mid|)
  {
    var s := "%" + mid + "%URL%" + post;
    var tail := "%URL%" + post;
    assert s[1..] == mid + tail;
    assert s[1] != 'U';
    MismatchAt(s, "%URL%", 0, 1);
    IndexOfSkip(s, "%URL%");
    IndexOfPast(mid, tail, "%URL%");
    assert tail[..5] == "%URL%";
  }

  /** The search for `%URL%` passes over a leading `%NAME%`. */
  lemma UrlAfterName(mid: string, post: string)
    requires '%' !in mid && (mid == [] || mid[0] != 'U')
    ensures IndexOf("%NAME%" + mid + "%URL%" + post, "%URL%") == Some(6 + |mid|)
  {
    var s := "%NAME%" + mid + "%URL%" + post;
    var afterName := "%" + mid + "%URL%" + post;
    assert s[1..] == "NAME" + afterName;
    MismatchAt(s, "%URL%", 0, 1);
    IndexOfSkip(s, "%URL%");
    IndexOfPast("NAME", afterName, "%URL%");
    UrlAfterPercent(mid, post);
  }

  /** The first `%URL%` of a template that names the watcher first, with no `%` in between. */
  lemma UrlPlaceholderAt(pre: string, mid: string, post: string)
    requires '%' !in pre && '%' !in mid && (mid == [] || mid[0] != 'U')
    ensures IndexOf(pre + "%NAME%" + mid + "%URL%" + post, "%URL%") == Some(|pre| + 6 + |mid|)
  {
    var afterPre := "%NAME%" + mid + "%URL%" + post;
    assert pre + "%NAME%" + mid + "%URL%" + post == pre + afterPre;
    IndexOfPast(pre, afterPre, "%URL%");
    UrlAfterName(mid, post);
  }

  /** The first `%NAME%` of a template that starts with it after a prefix without `%`. */
  lemma NamePlaceholderAt(pre: string, rest: string)
    requires '%' !in pre
    ensures IndexOf(pre + "%NAME%" + rest, "%NAME%") == Some(|pre|)
  {
    var nameOn := "%NAME%" + rest;
    assert pre + "%NAME%" + rest == pre + nameOn;
    IndexOfPast(pre, nameOn, "%NAME%");
    assert nameOn[..6] == "%NAME%";
  }

  /** Replacing `%URL%` in such a template leaves the name placeholder in front. */
  lemma UrlReplaced(pre: string, mid: string, post: string, url: string)
    requires '%' !in pre && '%' !in mid && (mid == [] || mid[0] != 'U')
    ensures Replace(pre + "%NAME%" + mid + "%URL%" + post, "%URL%", url) == pre + "%NAME%" + (mid + url + post)
  {
    UrlPlaceholderAt(pre, mid, post);
    Splice(pre + "%NAME%" + mid, "%URL%", post, url);
    assert pre + "%NAME%" + mid + url + post == pre + "%NAME%" + (mid + url + post);
  }

  /** Replacing `%NAME%` when it comes first after a prefix without `%`. */
  lemma NameReplaced(pre: string, rest: string, name: string)
    requires '%' !in pre
    ensures Replace(pre + "%NAME%" + rest, "%NAME%", name) == pre + name + rest
  {
    NamePlaceholderAt(pre, rest);
    Splice(pre, "%NAME%", rest, name);
  }

  /**
   * A template naming the watcher and then its URL, with no `%` in between,
   * has both placeholders replaced.
   */
  lemma PlaceholdersReplaced(pre: string, mid: string, post: string, url: string, name: string)
    requires '%' !in pre && '%' !in mid && (mid == [] || mid[0] != 'U')
    ensures ReplaceVariables(pre + "%NAME%" + mid + "%URL%" + post, url, name) == pre + name + mid + url + post
  {
    UrlReplaced(pre, mid, post, url);
    NameReplaced(pre, mid + url + post, name);
    assert pre + name + (mid + url + post) == pre + name + mid + url + post;
  }

  /** Only the first placeholder is substituted. */
  lemma FirstPlaceholderOnly(url: string, name: string)
    requires forall j: nat :: !OccursAt(url, "%NAME%", j)
    ensures ReplaceVariables("%URL% %URL%", url, name) == url + " %URL%"
  {
    var t := "%URL% %URL%";
    assert t[0..5] == "%URL%";
    assert FirstAt(t, "%URL%", 0);
    ReplaceFirst(t, "%URL%", url);
    var u := url + " %URL%";
    assert t[..0] + url + t[5..] == u;
    forall j: nat ensures !OccursAt(u, "%NAME%", j) {
      if j + 6 <= |u| {
        if j + 6 <= |url| {
          assert u[j..j + 6] == url[j..j + 6];
          assert !OccursAt(url, "%NAME%", j);
        } else {
          MismatchAt(u, "%NAME%", j, |url| - j);
        }
      }
    }
    ReplaceFirst(u, "%NAME%", name);
  }
}
