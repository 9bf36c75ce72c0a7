/**
 * The line a cycle logs after the collection step when its watcher names a
 * text to probe for, which ends in whether the text was found.
 * As written, the line reads a collection that threw (whose result is
 * `undefined`) like one whose condition is not met; `Found` is the word the
 * line evidently means to print.
 */
module Report {
  import opened Js
  import opened Config
  import opened Artifacts

  /**
   * The FOUND / NOT found word as written: a met condition with `isPresent`
   * true, or a falsy condition (not met, or `undefined` after a thrown
   * collection) with `isPresent` not true.
   */
  predicate FoundAsWritten(v: Verdict, isPresent: Option<bool>) {
    (v == Met && IsTrue(isPresent)) || (v != Met && !IsTrue(isPresent))
  }

  /** The word as intended: a collection that threw observed no text. */
  predicate Found(v: Verdict, isPresent: Option<bool>) {
    v != Threw && FoundAsWritten(v, isPresent)
  }

  /**
   * As written, the word is right whenever the text probe ran: it says
   * FOUND exactly when the text was visible.
   */
  lemma FoundAsWrittenAfterProbe(files: Files, w: Watcher, s: Settings, page: Page, compare: (Bytes, Bytes) -> PixelDiff)
    requires page.loads && !s.useScreenshotComparison
    ensures FoundAsWritten(ScrapeSpec(files, w, s, page, compare).verdict, ProbeFlag(w)) <==> page.textVisible
  {
    TextModeVerdict(files, w, s, page, compare);
  }

  /**
   * As written, a collection that threw is logged as FOUND whenever
   * `isPresent` is not true, although the page was never probed.
   */
  lemma ThrownCollectionLoggedFound(files: Files, w: Watcher, s: Settings, page: Page, compare: (Bytes, Bytes) -> PixelDiff)
    requires !page.loads && !IsTrue(ProbeFlag(w))
    ensures FoundAsWritten(ScrapeSpec(files, w, s, page, compare).verdict, ProbeFlag(w))
    ensures !Found(ScrapeSpec(files, w, s, page, compare).verdict, ProbeFlag(w))
  {
    CollectionFailure(files, w, s, page, compare);
  }

  /** With the correction, FOUND means the page loaded and showed the text, and conversely. */
  lemma FoundMeansVisible(files: Files, w: Watcher, s: Settings, page: Page, compare: (Bytes, Bytes) -> PixelDiff)
    requires !s.useScreenshotComparison
    ensures Found(ScrapeSpec(files, w, s, page, compare).verdict, ProbeFlag(w)) <==> page.loads && page.textVisible
  {
    if page.loads {
      FoundAsWrittenAfterProbe(files, w, s, page, compare);
      TextModeVerdict(files, w, s, page, compare);
    } else {
      CollectionFailure(files, w, s, page, compare);
    }
  }
}
