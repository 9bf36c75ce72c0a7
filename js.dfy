/**
 * The few JavaScript value rules the watcher relies on: optional values,
 * truthiness, `String.prototype.indexOf` / `replace` with a string pattern,
 * and `Array.prototype.join`.
 */
module Js {

  /** An optional configuration value: `undefined` or a value. */
  datatype Option<+T> = None | Some(value: T)

  /** An optional boolean in a boolean context: only `true` is truthy. */
  predicate IsTrue(b: Option<bool>) {
    b == Some(true)
  }

  /** An optional number in a boolean context: `undefined` and `0` are falsy. */
  predicate TruthyNumber(n: Option<int>) {
    n.Some? && n.value != 0
  }

  /** An optional string in a boolean context: `undefined` and `""` are falsy. */
  predicate TruthyString(s: Option<string>) {
    s.Some? && s.value != ""
  }

  /** `pat` occurs in `s` starting at position `i`. */
  predicate OccursAt(s: string, pat: string, i: nat) {
    i + |pat| <= |s| && s[i..i + |pat|] == pat
  }

  /** `i` is the first position at which `pat` occurs in `s`. */
  predicate FirstAt(s: string, pat: string, i: nat) {
    OccursAt(s, pat, i) && forall j: nat :: j < i ==> !OccursAt(s, pat, j)
  }

  lemma OccursShift(s: string, pat: string, j: nat)
    requires s != []
    ensures OccursAt(s, pat, j + 1) <==> OccursAt(s[1..], pat, j)
  {
    if j + 1 + |pat| <= |s| {
      assert s[j + 1..j + 1 + |pat|] == s[1..][j..j + |pat|];
    }
  }

  /** `s.indexOf(pat)`, with `None` standing for -1. */
  function IndexOf(s: string, pat: string): (r: Option<nat>)
    ensures r.Some? ==> r.value + |pat| <= |s|
    decreases |s|
  {
    if OccursAt(s, pat, 0) then Some(0)
    else if s == [] then None
    else
      match IndexOf(s[1..], pat)
      case None => None
      case Some(k) => Some(k + 1)
  }

  /** `IndexOf` finds the first occurrence, and reports none only when there is none. */
  lemma {:induction false} IndexOfFirst(s: string, pat: string)
    ensures IndexOf(s, pat).Some? ==> FirstAt(s, pat, IndexOf(s, pat).value)
    ensures IndexOf(s, pat).None? ==> forall j: nat :: !OccursAt(s, pat, j)
    decreases |s|
  {
    if !OccursAt(s, pat, 0) && s != [] {
      IndexOfFirst(s[1..], pat);
      forall j: nat ensures OccursAt(s, pat, j + 1) <==> OccursAt(s[1..], pat, j) {
        OccursShift(s, pat, j);
      }
      forall j: nat | j > 0 && (IndexOf(s, pat).None? || j < IndexOf(s, pat).value)
        ensures !OccursAt(s, pat, j)
      {
        assert !OccursAt(s[1..], pat, j - 1);
      }
    }
  }

  /** The search moves past a prefix in which the pattern's first character does not appear. */
  lemma {:induction false} IndexOfPast(p: string, rest: string, pat: string)
    requires pat != [] && pat[0] !in p
    ensures IndexOf(p + rest, pat) ==
      match IndexOf(rest, pat)
      case None => None
      case Some(i) => Some(|p| + i)
    decreases |p|
  {
    if p == [] {
      assert p + rest == rest;
    } else {
      var s := p + rest;
      assert s[0] == p[0] && s[1..] == p[1..] + rest;
      MismatchAt(s, pat, 0, 0);
      IndexOfPast(p[1..], rest, pat);
    }
  }

  /** Where the pattern does not occur at the start, the search goes on one position later. */
  lemma IndexOfSkip(s: string, pat: string)
    requires s != [] && !OccursAt(s, pat, 0)
    ensures IndexOf(s, pat) ==
      match IndexOf(s[1..], pat)
      case None => None
      case Some(i) => Some(1 + i)
  {
  }

  /** A position at which `s` and `pat` disagree rules out an occurrence at `j`. */
  lemma MismatchAt(s: string, pat: string, j: nat, k: nat)
    requires j + |pat| <= |s| ==> k < |pat| && s[j + k] != pat[k]
    ensures !OccursAt(s, pat, j)
  {
    if j + |pat| <= |s| {
      assert s[j..j + |pat|][k] == s[j + k];
    }
  }

  lemma FirstAtUnique(s: string, pat: string, i: nat, k: nat)
    requires FirstAt(s, pat, i) && FirstAt(s, pat, k)
    ensures i == k
  {
  }

  /**
   * `s.replace(pat, rep)` with a string pattern: only the first occurrence
   * of `pat` is replaced, and `s` is returned as it is when there is none.
   */
  function Replace(s: string, pat: string, rep: string): string {
    match IndexOf(s, pat)
    case None => s
    case Some(i) => s[..i] + rep + s[i + |pat|..]
  }

  /** What `Replace` does, stated by the first occurrence of the pattern. */
  lemma ReplaceFirst(s: string, pat: string, rep: string)
    ensures (forall j: nat :: !OccursAt(s, pat, j)) ==> Replace(s, pat, rep) == s
    ensures forall i: nat :: FirstAt(s, pat, i) ==> Replace(s, pat, rep) == s[..i] + rep + s[i + |pat|..]
  {
    IndexOfFirst(s, pat);
    match IndexOf(s, pat)
    case None =>
    case Some(i) =>
      forall k: nat | FirstAt(s, pat, k) ensures k == i {
        FirstAtUnique(s, pat, k, i);
      }
  }

  /** Cutting `pat` out of `a + pat + b` and putting `rep` in its place. */
  lemma Splice(a: string, pat: string, b: string, rep: string)
    ensures var s := a + pat + b;
      s[..|a|] + rep + s[|a| + |pat|..] == a + rep + b
  {
    var s := a + pat + b;
    assert s[..|a|] == a;
    assert s[|a| + |pat|..] == b;
  }

  /** `parts.join(sep)`. */
  function Join(parts: seq<string>, sep: string): string
  {
    if parts == [] then ""
    else if |parts| == 1 then parts[0]
    else parts[0] + sep + Join(parts[1..], sep)
  }

  /** `s.split(c)` for a one-character separator: the pieces between the separators. */
  function Split(s: string, c: char): (r: seq<string>)
    ensures |r| >= 1
    ensures forall k :: 0 <= k < |r| ==> c !in r[k]
  {
    if s == [] then [""]
    else
      var rest := Split(s[1..], c);
      if s[0] == c then [""] + rest
      else [[s[0]] + rest[0]] + rest[1..]
  }

  lemma {:induction false} SplitWord(w: string, c: char, t: string)
    requires c !in w
    ensures Split(w + t, c) == [w + Split(t, c)[0]] + Split(t, c)[1..]
    decreases |w|
  {
    if w != [] {
      var r := Split(t, c);
      assert (w + t)[0] == w[0] && (w + t)[1..] == w[1..] + t;
      SplitWord(w[1..], c, t);
      var rest := Split(w[1..] + t, c);
      assert rest[0] == w[1..] + r[0] && rest[1..] == r[1..];
      assert [w[0]] + rest[0] == w + r[0];
    } else {
      var r := Split(t, c);
      assert w + t == t && w + r[0] == r[0];
      assert [r[0]] + r[1..] == r;
    }
  }

  /**
   * Joining words that do not contain the separator and splitting the
   * result at that separator gives back the words.
   */
  lemma {:induction false} SplitJoin(parts: seq<string>, c: char)
    requires |parts| >= 1
    requires forall k :: 0 <= k < |parts| ==> c !in parts[k]
    ensures Split(Join(parts, [c]), c) == parts
    decreases |parts|
  {
    if |parts| == 1 {
      SplitWord(parts[0], c, "");
      assert parts[0] + "" == parts[0];
      assert parts == [parts[0]];
    } else {
      var tail := Join(parts[1..], [c]);
      SplitJoin(parts[1..], c);
      assert ([c] + tail)[0] == c && ([c] + tail)[1..] == tail;
      assert Split([c] + tail, c) == [""] + parts[1..];
      assert Join(parts, [c]) == parts[0] + ([c] + tail);
      SplitWord(parts[0], c, [c] + tail);
      assert parts[0] + "" == parts[0];
      assert parts == [parts[0]] + parts[1..];
    }
  }
}
