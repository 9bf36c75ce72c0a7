/**
 * The per-watcher artifact files and the verdict of one collection: the
 * text-presence probe, or the screenshot comparison with its baseline
 * bootstrap and rotation. Files are a map from path to contents; the browser
 * is a `Page` observation and the pixel comparator a function parameter.
 */
module Artifacts {
  import opened Js
  import opened Config

  newtype byte = x: int | 0 <= x < 256
  type Bytes = seq<byte>
  type Files = map<string, Bytes>

  /** What the browser yields for one watcher in one cycle. */
  datatype Page = Page(
    loads: bool,        // navigation, settle waits, element lookup and capture all succeed
    textVisible: bool,  // outcome of the text probe; a probe timeout or error is `false`
    shot: Bytes)        // the captured screenshot (of the selected element, or of the page)

  /** What comparing the stored base with a fresh capture yields. */
  datatype PixelDiff =
    | BaseUnreadable                 // the stored base does not decode
    | SizeMismatch                   // the comparator rejects images of different sizes
    | Diff(image: Bytes, pixels: nat)

  /** The value `scrape` resolves to: `true`, `false`, or `undefined` after a caught error. */
  datatype Verdict = Met | NotMet | Threw

  datatype Scraped = Scraped(files: Files, verdict: Verdict)

  function DataDir(name: string): string {
    ".data/" + name
  }

  /** The date string with every `/` rewritten to `_`. */
  function SlashesToUnderscores(s: string): string {
    if s == [] then ""
    else [if s[0] == '/' then '_' else s[0]] + SlashesToUnderscores(s[1..])
  }

  /** Rewriting keeps every character except `/`, which becomes `_`. */
  lemma {:induction false} SlashesRewritten(s: string)
    ensures var r := SlashesToUnderscores(s);
      && |r| == |s|
      && (forall i :: 0 <= i < |s| ==> r[i] == if s[i] == '/' then '_' else s[i])
      && '/' !in r
    decreases |s|
  {
    if s != [] {
      SlashesRewritten(s[1..]);
      var r := SlashesToUnderscores(s);
      assert forall i :: 1 <= i < |s| ==> r[i] == SlashesToUnderscores(s[1..])[i - 1];
    }
  }

  /** The once-per-day found marker of watcher `name` on the local date `date`. */
  function MarkerPath(name: string, date: string): string {
    DataDir(name) + "/FOUND_" + SlashesToUnderscores(date)
  }

  /**
   * Markers are per day: two different dates written without `_` give two
   * different marker paths, so a new day starts without a marker.
   */
  lemma MarkerPerDay(name: string, date1: string, date2: string)
    requires date1 != date2
    requires '_' !in date1 && '_' !in date2
    ensures MarkerPath(name, date1) != MarkerPath(name, date2)
  {
    var prefix := DataDir(name) + "/FOUND_";
    var r1, r2 := SlashesToUnderscores(date1), SlashesToUnderscores(date2);
    SlashesRewritten(date1);
    SlashesRewritten(date2);
    PrefixCancel(prefix, r1, r2);
    if |date1| == |date2| {
      var i :| 0 <= i < |date1| && date1[i] != date2[i];
      assert date1[i] in date1 && date2[i] in date2;
      assert r1[i] != r2[i];
    }
  }

  lemma PrefixCancel(p: string, a: string, b: string)
    ensures p + a == p + b <==> a == b
  {
    assert a == (p + a)[|p|..];
    assert b == (p + b)[|p|..];
  }

  function ArtifactPath(name: string, suffix: string): string {
    DataDir(name) + "/" + name + suffix
  }

  function BasePath(name: string): string { ArtifactPath(name, "_Base.png") }
  function OldBasePath(name: string): string { ArtifactPath(name, "_Base_Old.png") }
  function LatestPath(name: string): string { ArtifactPath(name, "_Latest.png") }
  function DiffPath(name: string): string { ArtifactPath(name, "_Diff.png") }

  /** The text-mode page screenshot, named after the verdict. */
  function PageShotPath(name: string, met: bool): string {
    ArtifactPath(name, if met then "_AVAILABLE.png" else "_UNAVAILABLE.png")
  }

  /** The four screenshot artifacts are four different files. */
  lemma ScreenshotPathsDistinct(name: string)
    ensures BasePath(name) != OldBasePath(name)
    ensures BasePath(name) != LatestPath(name)
    ensures BasePath(name) != DiffPath(name)
    ensures OldBasePath(name) != LatestPath(name)
    ensures OldBasePath(name) != DiffPath(name)
    ensures LatestPath(name) != DiffPath(name)
  {
    var p := DataDir(name) + "/" + name;
    var base, oldBase, latest, diff := "_Base.png", "_Base_Old.png", "_Latest.png", "_Diff.png";
    assert base[1] != diff[1] && |base| != |oldBase| && |base| != |latest|;
    assert |oldBase| != |latest| && |oldBase| != |diff| && |latest| != |diff|;
    PrefixCancel(p, base, oldBase);
    PrefixCancel(p, base, latest);
    PrefixCancel(p, base, diff);
    PrefixCancel(p, oldBase, latest);
    PrefixCancel(p, oldBase, diff);
    PrefixCancel(p, latest, diff);
  }

  /** `conditionMet` of the text probe: the expectation about the text is met. */
  function TextCondition(isPresent: Option<bool>, visible: bool): bool {
    if IsTrue(isPresent) then visible else !visible
  }

  /**
   * The files and the verdict after the collection step of one cycle for
   * watcher `w` with settings `s`: the reference definition the imperative
   * `scrape` is proved against.
   */
  function ScrapeSpec(files: Files, w: Watcher, s: Settings, page: Page, compare: (Bytes, Bytes) -> PixelDiff): Scraped {
    if !page.loads then Scraped(files, Threw)
    else if s.useScreenshotComparison then
      var base, oldBase, latest, diff := BasePath(w.name), OldBasePath(w.name), LatestPath(w.name), DiffPath(w.name);
      if base !in files then Scraped(files[base := page.shot], Met)
      else
        match compare(files[base], page.shot)
        case BaseUnreadable => Scraped(files, Threw)
        case SizeMismatch => Scraped(files[latest := page.shot], Threw)
        case Diff(image, pixels) =>
          var written := files[latest := page.shot][diff := image];
          if pixels > 0 then
            var rotated := written[oldBase := written[base]];
            Scraped(rotated[base := rotated[latest]], Met)
          else Scraped(written, NotMet)
    else
      var met := TextCondition(ProbeFlag(w), page.textVisible);
      var files' := if s.takeScreenshot then files[PageShotPath(w.name, met) := page.shot] else files;
      Scraped(files', if met then Met else NotMet)
  }

  /** The collection step never deletes a file. */
  lemma ScrapeKeepsFiles(files: Files, w: Watcher, s: Settings, page: Page, compare: (Bytes, Bytes) -> PixelDiff)
    ensures files.Keys <= ScrapeSpec(files, w, s, page, compare).files.Keys
  {
  }

  /** A page that fails to load leaves every file as it was and resolves to `undefined`. */
  lemma CollectionFailure(files: Files, w: Watcher, s: Settings, page: Page, compare: (Bytes, Bytes) -> PixelDiff)
    requires !page.loads
    ensures ScrapeSpec(files, w, s, page, compare) == Scraped(files, Threw)
  {
  }

  /**
   * Text mode: the verdict is met exactly when the observed presence of the
   * text equals the expected one (`isPresent`, absent meaning false), and
   * the only file written is the optional page screenshot named after it.
   */
  lemma TextModeVerdict(files: Files, w: Watcher, s: Settings, page: Page, compare: (Bytes, Bytes) -> PixelDiff)
    requires page.loads && !s.useScreenshotComparison
    ensures var r := ScrapeSpec(files, w, s, page, compare);
      var expected := w.waitForText.Some? && IsTrue(w.waitForText.value.isPresent);
      && r.verdict != Threw
      && (r.verdict == Met <==> page.textVisible == expected)
      && (s.takeScreenshot ==> r.files == files[PageShotPath(w.name, r.verdict == Met) := page.shot])
      && (!s.takeScreenshot ==> r.files == files)
  {
  }

  /**
   * Bootstrap: without a base, the capture becomes the base, the verdict is
   * met, and nothing else (no latest, no diff) is written.
   */
  lemma Bootstrap(files: Files, w: Watcher, s: Settings, page: Page, compare: (Bytes, Bytes) -> PixelDiff)
    requires page.loads && s.useScreenshotComparison && BasePath(w.name) !in files
    ensures var r := ScrapeSpec(files, w, s, page, compare);
      && r.verdict == Met
      && r.files.Keys == files.Keys + {BasePath(w.name)}
      && r.files[BasePath(w.name)] == page.shot
      && forall p :: p in files ==> r.files[p] == files[p]
  {
  }

  /**
   * Comparison: the latest capture and the diff image are always written;
   * the verdict is met exactly when at least one pixel differs; then the old
   * base moves to `_Base_Old` and the capture becomes the base, otherwise
   * base and old base are untouched. No other file changes.
   */
  lemma Comparison(files: Files, w: Watcher, s: Settings, page: Page, compare: (Bytes, Bytes) -> PixelDiff)
    requires page.loads && s.useScreenshotComparison && BasePath(w.name) in files
    requires compare(files[BasePath(w.name)], page.shot).Diff?
    ensures var r := ScrapeSpec(files, w, s, page, compare);
      var n := compare(files[BasePath(w.name)], page.shot).pixels;
      var base, oldBase := BasePath(w.name), OldBasePath(w.name);
      && r.files[LatestPath(w.name)] == page.shot
      && r.files[DiffPath(w.name)] == compare(files[base], page.shot).image
      && (r.verdict == Met <==> n > 0)
      && (r.verdict != Threw)
      && (n > 0 ==> r.files[oldBase] == files[base] && r.files[base] == page.shot)
      && (n == 0 ==> r.files[base] == files[base] && (oldBase in r.files <==> oldBase in files)
                     && (oldBase in files ==> r.files[oldBase] == files[oldBase]))
      && r.files.Keys == files.Keys + {LatestPath(w.name), DiffPath(w.name)} + (if n > 0 then {oldBase} else {})
      && forall p :: p in files && p !in {base, oldBase, LatestPath(w.name), DiffPath(w.name)} ==> r.files[p] == files[p]
  {
    ScreenshotPathsDistinct(w.name);
  }

  /**
   * A base that does not decode aborts before anything is written; a size
   * mismatch aborts after the latest capture was written.
   */
  lemma ComparisonAborted(files: Files, w: Watcher, s: Settings, page: Page, compare: (Bytes, Bytes) -> PixelDiff)
    requires page.loads && s.useScreenshotComparison && BasePath(w.name) in files
    requires !compare(files[BasePath(w.name)], page.shot).Diff?
    ensures var r := ScrapeSpec(files, w, s, page, compare);
      && r.verdict == Threw
      && (compare(files[BasePath(w.name)], page.shot).BaseUnreadable? ==> r.files == files)
      && (compare(files[BasePath(w.name)], page.shot).SizeMismatch? ==>
            r.files == files[LatestPath(w.name) := page.shot])
  {
  }

  /**
   * Two generations: after the bootstrap capture `a` and two confirmed
   * changes `b` then `c`, the old base holds `b`, the first capture after the
   * bootstrap, and the base holds `c`.
   */
  lemma {:induction false} TwoGenerations(
    files: Files, w: Watcher, s: Settings, a: Page, b: Page, c: Page, compare: (Bytes, Bytes) -> PixelDiff)
    requires s.useScreenshotComparison && a.loads && b.loads && c.loads
    requires BasePath(w.name) !in files
    requires && compare(a.shot, b.shot).Diff? && compare(a.shot, b.shot).pixels > 0
      && compare(b.shot, c.shot).Diff? && compare(b.shot, c.shot).pixels > 0
    ensures var f1 := ScrapeSpec(files, w, s, a, compare);
      var f2 := ScrapeSpec(f1.files, w, s, b, compare);
      var f3 := ScrapeSpec(f2.files, w, s, c, compare);
      && f1.verdict == Met && f2.verdict == Met && f3.verdict == Met
      && f3.files[OldBasePath(w.name)] == b.shot
      && f3.files[BasePath(w.name)] == c.shot
  {
    var base := BasePath(w.name);
    Bootstrap(files, w, s, a, compare);
    var f1 := ScrapeSpec(files, w, s, a, compare);
    assert f1.files[base] == a.shot;
    Comparison(f1.files, w, s, b, compare);
    var f2 := ScrapeSpec(f1.files, w, s, b, compare);
    assert f2.files[base] == b.shot;
    Comparison(f2.files, w, s, c, compare);
  }

  /**
   * Bootstrap then a repeat: when the comparator finds no difference between
   * an image and itself, the run after the bootstrap with the same capture
   * is not met and leaves the base as it is.
   */
  lemma BootstrapThenSame(
    files: Files, w: Watcher, s: Settings, page: Page, compare: (Bytes, Bytes) -> PixelDiff)
    requires s.useScreenshotComparison && page.loads
    requires BasePath(w.name) !in files
    requires compare(page.shot, page.shot).Diff? && compare(page.shot, page.shot).pixels == 0
    ensures var f1 := ScrapeSpec(files, w, s, page, compare);
      var f2 := ScrapeSpec(f1.files, w, s, page, compare);
      && f1.verdict == Met && f2.verdict == NotMet
      && f2.files[BasePath(w.name)] == page.shot
  {
    Bootstrap(files, w, s, page, compare);
    var f1 := ScrapeSpec(files, w, s, page, compare);
    Comparison(f1.files, w, s, page, compare);
  }
}
