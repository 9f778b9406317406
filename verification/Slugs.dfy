/** Slugs: what branch names are made of. `lower` is the language's lower-casing, of which only its
    effect on slugs themselves matters. */
module Slugs {

  predicate IsWord(c: char) {
    'a' <= c <= 'z' || '0' <= c <= '9'
  }

  function SkipOthers(s: string): (t: string)
    ensures |t| <= |s| && (t == "" || IsWord(t[0]))
    ensures s != "" && !IsWord(s[0]) ==> |t| < |s|
  {
    if s == "" || IsWord(s[0]) then s else SkipOthers(s[1..])
  }

  /** Every run of other characters becomes one dash. */
  function Dashed(s: string): string
    decreases |s|
  {
    if s == "" then ""
    else if IsWord(s[0]) then [s[0]] + Dashed(s[1..])
    else "-" + Dashed(SkipOthers(s))
  }

  function StripLeft(s: string): string {
    if s != "" && s[0] == '-' then StripLeft(s[1..]) else s
  }

  function StripRight(s: string): string {
    if s != "" && s[|s| - 1] == '-' then StripRight(s[..|s| - 1]) else s
  }

  function Strip(s: string): string {
    StripRight(StripLeft(s))
  }

  function Take(s: string, n: nat): string {
    if n < |s| then s[..n] else s
  }

  function Words(lower: string -> string, text: string): string {
    Strip(Dashed(lower(text)))
  }

  function Slug(lower: string -> string, text: string, n: nat): string {
    var cut := Strip(Take(Words(lower, text), n));
    if cut != "" then cut else "task"
  }

  /** Words separated by single dashes, none at either end. */
  predicate Canonical(s: string) {
    && s != "" && IsWord(s[0]) && IsWord(s[|s| - 1])
    && (forall i :: 0 <= i < |s| ==> IsWord(s[i]) || s[i] == '-')
    && (forall i :: 0 < i < |s| ==> s[i - 1] != '-' || s[i] != '-')
  }

  /** Lower-casing leaves what is already a slug alone. */
  ghost predicate KeepsSlugs(lower: string -> string) {
    forall s :: Canonical(s) ==> lower(s) == s
  }

  // ---- dashes ----------------------------------------------------------------------------

  predicate SingleDashes(s: string) {
    && (forall i :: 0 <= i < |s| ==> IsWord(s[i]) || s[i] == '-')
    && (forall i :: 0 < i < |s| ==> s[i - 1] != '-' || s[i] != '-')
  }

  lemma {:induction false} DashedSingle(s: string)
    ensures SingleDashes(Dashed(s))
    ensures s != "" && IsWord(s[0]) ==> Dashed(s) != "" && IsWord(Dashed(s)[0])
    decreases |s|
  {
    if s != "" {
      if IsWord(s[0]) { DashedSingle(s[1..]); } else { DashedSingle(SkipOthers(s)); }
    }
  }

  /** Text of words and single dashes that does not end in a dash is left as it is. */
  lemma {:induction false} DashedFixed(s: string)
    requires SingleDashes(s) && (s == "" || IsWord(s[|s| - 1]))
    ensures Dashed(s) == s
    decreases |s|
  {
    if s != "" {
      if !IsWord(s[0]) {
        assert IsWord(s[1]);
        assert SkipOthers(s) == SkipOthers(s[1..]) == s[1..];
      }
      DashedFixed(s[1..]);
    }
  }

  lemma {:induction false} StripLeftSingle(s: string)
    requires SingleDashes(s)
    ensures SingleDashes(StripLeft(s)) && (StripLeft(s) == "" || IsWord(StripLeft(s)[0]))
    decreases |s|
  {
    if s != "" && s[0] == '-' { StripLeftSingle(s[1..]); }
  }

  lemma {:induction false} StripRightSingle(s: string)
    requires SingleDashes(s) && (s == "" || IsWord(s[0]))
    ensures StripRight(s) == "" <==> s == ""
    ensures s != "" ==> Canonical(StripRight(s))
    ensures StripRight(s) == if s != "" && s[|s| - 1] == '-' then s[..|s| - 1] else s
    decreases |s|
  {
    if s != "" && s[|s| - 1] == '-' {
      assert IsWord(s[|s| - 2]);
      StripRightSingle(s[..|s| - 1]);
    }
  }

  lemma WordsCanonical(lower: string -> string, text: string)
    ensures Words(lower, text) == "" || Canonical(Words(lower, text))
  {
    var d := Dashed(lower(text));
    DashedSingle(lower(text));
    StripLeftSingle(d);
    StripRightSingle(StripLeft(d));
  }

  /** Cutting a slug: the prefix, less a dash it may now end in. */
  lemma CutSlug(s: string, n: nat)
    requires Canonical(s) && n > 0
    ensures var t := Take(s, n);
            && Strip(t) == (if t[|t| - 1] == '-' then t[..|t| - 1] else t)
            && Canonical(Strip(t)) && |Strip(t)| <= n
  {
    StripRightSingle(Take(s, n));
  }

  // ---- which words a slug keeps ------------------------------------------------------------

  /** The maximal runs of letters a-z and digits of a text, in order; `run` is the one being read. */
  function Runs(s: string, run: string): seq<string>
    decreases |s|
  {
    var read := if run == "" then [] else [run];
    if s == "" then read
    else if 'a' <= s[0] <= 'z' || '0' <= s[0] <= '9' then Runs(s[1..], run + [s[0]])
    else read + Runs(s[1..], "")
  }

  function Hyphenated(words: seq<string>): string {
    if words == [] then "" else if |words| == 1 then words[0] else words[0] + "-" + Hyphenated(words[1..])
  }

  predicate AllWord(s: string) {
    forall i :: 0 <= i < |s| ==> IsWord(s[i])
  }

  lemma {:induction false} SkippedRuns(s: string)
    ensures Runs(SkipOthers(s), "") == Runs(s, "")
    decreases |s|
  {
    if s != "" && !IsWord(s[0]) {
      SkippedRuns(s[1..]);
      assert [] + Runs(s[1..], "") == Runs(s[1..], "");
    }
  }

  lemma {:induction false} StripRightAppend(a: string, b: string)
    requires StripRight(b) != ""
    ensures StripRight(a + b) == a + StripRight(b)
    decreases |b|
  {
    if b[|b| - 1] == '-' {
      assert (a + b)[..|a + b| - 1] == a + b[..|b| - 1];
      StripRightAppend(a, b[..|b| - 1]);
    }
  }

  lemma HyphenatedCons(word: string, words: seq<string>)
    requires words != []
    ensures Hyphenated([word] + words) == word + "-" + Hyphenated(words)
  {
    assert ([word] + words)[1..] == words;
  }

  lemma {:induction false} RunsNonEmpty(s: string, run: string)
    requires run != ""
    ensures Runs(s, run) != []
    decreases |s|
  {
    if s != "" && IsWord(s[0]) { RunsNonEmpty(s[1..], run + [s[0]]); }
  }

  /** Within a run: what remains after dashing and stripping the end are the runs, hyphenated. */
  lemma {:induction false} RunsDashed(s: string, run: string)
    requires run != "" && AllWord(run)
    ensures StripRight(run + Dashed(s)) == Hyphenated(Runs(s, run)) && StripRight(run + Dashed(s)) != ""
    decreases |s|
  {
    if s == "" {
      assert run + "" == run;
    } else if IsWord(s[0]) {
      assert run + Dashed(s) == (run + [s[0]]) + Dashed(s[1..]);
      RunsDashed(s[1..], run + [s[0]]);
    } else {
      RunEnds(s, run);
    }
  }

  lemma {:induction false} RunEnds(s: string, run: string)
    requires run != "" && AllWord(run) && s != "" && !IsWord(s[0])
    ensures StripRight(run + Dashed(s)) == Hyphenated(Runs(s, run)) && StripRight(run + Dashed(s)) != ""
    decreases |s|, 0
  {
    var r := SkipOthers(s);
    SkippedRuns(s[1..]);
    assert SkipOthers(s) == SkipOthers(s[1..]);
    assert Dashed(s) == "-" + Dashed(r);
    assert run + ("-" + Dashed(r)) == (run + "-") + Dashed(r);
    if r == "" {
      assert (run + "-")[..|run + "-"| - 1] == run;
      assert (run + "-") + "" == run + "-";
      assert [run] + [] == [run];
    } else {
      assert Dashed(r) == [r[0]] + Dashed(r[1..]);
      RunsDashed(r[1..], [r[0]]);
      StripRightAppend(run + "-", Dashed(r));
      assert "" + [r[0]] == [r[0]];
      RunsNonEmpty(r[1..], [r[0]]);
      HyphenatedCons(run, Runs(r, ""));
    }
  }

  /** Before any cut, a slug is the runs of letters and digits of the lower-cased text, hyphenated. */
  lemma {:induction false} WordsAreRuns(lower: string -> string, text: string)
    ensures Words(lower, text) == Hyphenated(Runs(lower(text), ""))
  {
    var s := lower(text);
    var r := SkipOthers(s);
    SkippedRuns(s);
    if s != "" && !IsWord(s[0]) {
      assert ("-" + Dashed(r))[1..] == Dashed(r);
      DashedSingle(r);
    }
    if r != "" {
      assert Dashed(r) == [r[0]] + Dashed(r[1..]);
      assert "" + [r[0]] == [r[0]];
      RunsDashed(r[1..], [r[0]]);
    }
    assert StripLeft(Dashed(s)) == Dashed(r);
  }

  /** Which words a slug keeps: all of them if they fit, hyphenated; otherwise as many characters of that as
      fit, less a hyphen at the cut; and the word `task` if that is nothing. */
  lemma {:induction false} SlugKeeps(lower: string -> string, text: string, n: nat)
    ensures var w := Hyphenated(Runs(lower(text), ""));
            Slug(lower, text, n) ==
            if w == "" || n == 0 then "task"
            else if |w| <= n then w
            else if w[n - 1] == '-' then w[..n - 1]
            else w[..n]
  {
    var w := Words(lower, text);
    WordsAreRuns(lower, text);
    WordsCanonical(lower, text);
    if w != "" && n > 0 {
      CutSlug(w, n);
    } else if w != "" {
      assert Take(w, 0) == "";
    }
  }

  /** A slug is canonical, never empty, and within the cap (the fallback `task` needs four characters). */
  lemma SlugIsCanonical(lower: string -> string, text: string, n: nat)
    ensures var r := Slug(lower, text, n); Canonical(r) && (|r| <= n || (r == "task" && n < 4))
  {
    var w := Words(lower, text);
    WordsCanonical(lower, text);
    if w != "" && n > 0 { CutSlug(w, n); }
    assert Canonical("task");
  }

  lemma SlugWords(lower: string -> string, s: string)
    requires KeepsSlugs(lower) && Canonical(s)
    ensures Words(lower, s) == s
  {
    DashedFixed(s);
  }

  /** Cutting twice is cutting once, at the shorter length. */
  lemma CutTwice(s: string, m: nat, n: nat)
    requires Canonical(s) && 0 < m <= n
    ensures Strip(Take(Strip(Take(s, n)), m)) == Strip(Take(s, m))
  {
    CutSlug(s, n);
    CutSlug(s, m);
    var t := Strip(Take(s, n));
    CutSlug(t, m);
    if m <= |t| {
      assert Take(t, m) == s[..m] == Take(s, m);
    } else {
      assert Take(t, m) == t;
    }
  }

  /** Slugs of different lengths agree: slugging a slug at a shorter length is slugging the text at that
      length, except where the fallback itself no longer fits. */
  lemma SlugsCompose(lower: string -> string, text: string, m: nat, n: nat)
    requires KeepsSlugs(lower) && m <= n
    ensures Slug(lower, Slug(lower, text, n), m) == Slug(lower, text, m) <==>
            (m == 0 || m >= 4 || Words(lower, text) != "")
  {
    var w := Words(lower, text);
    var r := Slug(lower, text, n);
    WordsCanonical(lower, text);
    SlugIsCanonical(lower, text, n);
    SlugWords(lower, r);
    if m > 0 {
      if w != "" {
        CutSlug(w, n);
        CutSlug(w, m);
        CutTwice(w, m, n);
      } else {
        assert r == "task";
        CutSlug(r, m);
        if m < 4 { assert |Slug(lower, r, m)| <= 3; }
      }
    }
  }

  /** In particular each slug is its own slug, and the 36-character form is that of the 40-character one. */
  lemma BranchSlugsAgree(lower: string -> string, text: string)
    requires KeepsSlugs(lower)
    ensures Slug(lower, Slug(lower, text, 40), 36) == Slug(lower, text, 36)
    ensures Slug(lower, Slug(lower, text, 40), 40) == Slug(lower, text, 40)
    ensures Slug(lower, Slug(lower, text, 36), 36) == Slug(lower, text, 36)
  {
    SlugsCompose(lower, text, 36, 40);
    SlugsCompose(lower, text, 40, 40);
    SlugsCompose(lower, text, 36, 36);
  }
}
