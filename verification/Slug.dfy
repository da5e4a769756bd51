/** Endpoint names: NormalizeMissionName turns typed text into a slug, ValidateSlug judges one. */
module Slug {

  const LIMIT := 48

  predicate Plain(c: char) { 'a' <= c <= 'z' || '0' <= c <= '9' }

  /** The library's rune classes, known only by what they do to the slug alphabet. */
  datatype Runes = Runes(lower: char -> char, space: char -> bool) {
    ghost predicate Standard() {
      && (forall c :: Plain(c) || c == '-' ==> lower(c) == c && !space(c))
      && (forall c :: space(c) ==> !Plain(lower(c)))
    }
  }

  function Lowered(s: string, u: Runes): (t: string)
    ensures |t| == |s| && forall i :: 0 <= i < |s| ==> t[i] == u.lower(s[i])
  {
    seq(|s|, i requires 0 <= i < |s| => u.lower(s[i]))
  }

  /** How many characters to drop at the start. */
  function Leading(s: string, drop: char -> bool): (n: nat)
    ensures n <= |s| && (n < |s| ==> !drop(s[n])) && forall i :: 0 <= i < n ==> drop(s[i])
  {
    if s == [] || !drop(s[0]) then 0 else 1 + Leading(s[1..], drop)
  }

  /** Where the part to drop at the end begins. */
  function Trailing(s: string, drop: char -> bool): (n: nat)
    ensures n <= |s| && (n > 0 ==> !drop(s[n - 1])) && forall i :: n <= i < |s| ==> drop(s[i])
  {
    if s == [] || !drop(s[|s| - 1]) then |s| else Trailing(s[..|s| - 1], drop)
  }

  function TrimRight(s: string, drop: char -> bool): string { s[..Trailing(s, drop)] }

  function TrimLeft(s: string, drop: char -> bool): string { s[Leading(s, drop)..] }

  function Trim(s: string, drop: char -> bool): string { TrimLeft(TrimRight(s, drop), drop) }

  // ---------- what a mission name becomes, without loops ----------

  /** The maximal runs of letters and digits, in order. */
  function Words(s: string): seq<string> {
    if s == [] then []
    else
      var n := |s| - 1;
      var before := Words(s[..n]);
      if !Plain(s[n]) then before
      else if n > 0 && Plain(s[n - 1]) && before != []
      then before[..|before| - 1] + [before[|before| - 1] + [s[n]]]
      else before + [[s[n]]]
  }

  function Joined(words: seq<string>): string {
    if words == [] then []
    else if |words| == 1 then words[0]
    else Joined(words[..|words| - 1]) + "-" + words[|words| - 1]
  }

  function Kept(s: string): string { Joined(Words(s)) }

  function Cut(s: string): string { if |s| <= LIMIT then s else s[..LIMIT] }

  predicate Hyphen(c: char) { c == '-' }

  function NoHyphenEnd(s: string): string { Trim(s, Hyphen) }

  /** The words joined by single hyphens, cut to 48 characters, without a hyphen left at the cut. */
  function Normal(s: string, u: Runes): string {
    NoHyphenEnd(Cut(Kept(Lowered(s, u))))
  }

  // ---------- the loop ----------

  lemma JoinedLast(words: seq<string>, last: string)
    ensures Joined(words + [last]) == if words == [] then last else Joined(words) + "-" + last
  {
    assert (words + [last])[..|words|] == words;
  }

  lemma JoinedLonger(words: seq<string>, last: string, c: char)
    ensures Joined(words + [last + [c]]) == Joined(words + [last]) + [c]
  {
    JoinedLast(words, last);
    JoinedLast(words, last + [c]);
    Associative(Joined(words) + "-", last, [c]);
  }

  lemma Associative(a: string, b: string, c: string)
    ensures a + (b + c) == a + b + c
  {
  }

  lemma {:induction false} WordsAreNonEmpty(s: string)
    ensures forall i :: 0 <= i < |Words(s)| ==> Words(s)[i] != []
    ensures s != [] && Plain(s[|s| - 1]) ==> Words(s) != []
  {
    if s != [] {
      var n := |s| - 1;
      WordsAreNonEmpty(s[..n]);
      var before := Words(s[..n]);
      if Plain(s[n]) && n > 0 && Plain(s[n - 1]) {
        assert Words(s) == before[..|before| - 1] + [before[|before| - 1] + [s[n]]];
      }
    }
  }

  lemma EmptyTogether(s: string)
    ensures Kept(s) == [] <==> Words(s) == []
  {
    WordsAreNonEmpty(s);
  }

  /** One more letter or digit extends the last word, or starts one after a hyphen. */
  function Extended(kept: string, gap: bool, c: char): string {
    if !Plain(c) then kept
    else if gap && kept != [] then kept + "-" + [c]
    else kept + [c]
  }

  lemma KeptGrows(s: string)
    requires s != []
    ensures var n := |s| - 1; Kept(s) == Extended(Kept(s[..n]), n > 0 && !Plain(s[n - 1]), s[n])
  {
    var n := |s| - 1;
    var before := Words(s[..n]);
    EmptyTogether(s[..n]);
    WordsAreNonEmpty(s[..n]);
    if Plain(s[n]) {
      if n > 0 && Plain(s[n - 1]) {
        var k := |before| - 1;
        assert before == before[..k] + [before[k]];
        JoinedLonger(before[..k], before[k], s[n]);
      } else {
        JoinedLast(before, [s[n]]);
      }
    }
  }

  /** What the loop does to its output on one more rune. */
  function Written(out: string, dash: bool, r: char): string {
    if !Plain(r) then out
    else
      var o := if dash && 0 < |out| < LIMIT then out + "-" else out;
      if |o| < LIMIT then o + [r] else o
  }

  lemma CutGrows(full: string, c: char)
    ensures Cut(full + [c]) == if |Cut(full)| < LIMIT then Cut(full) + [c] else Cut(full)
  {
    if |full| >= LIMIT {
      assert (full + [c])[..LIMIT] == full[..LIMIT];
    }
  }

  /** Cutting at the end is what cutting at every rune gives. */
  lemma WrittenIsCut(full: string, gap: bool, c: char)
    ensures Cut(Extended(full, gap, c)) == Written(Cut(full), gap, c)
  {
    CutGrows(full, c);
    CutGrows(full, '-');
    CutGrows(full + "-", c);
  }

  lemma OneMoreRune(value: string, i: nat)
    requires i < |value|
    ensures Cut(Kept(value[..i + 1])) == Written(Cut(Kept(value[..i])), i > 0 && !Plain(value[i - 1]), value[i])
  {
    var s := value[..i + 1];
    assert s[..i] == value[..i];
    KeptGrows(s);
    WrittenIsCut(Kept(value[..i]), i > 0 && !Plain(value[i - 1]), value[i]);
  }

  method NormalizeMissionName(text: string, u: Runes) returns (slug: string)
    requires u.Standard()
    ensures slug == Normal(text, u)
  {
    var value := Lowered(Trim(text, u.space), u);
    var out: string := [];
    var dash := false;
    for i := 0 to |value|
      invariant out == Cut(Kept(value[..i]))
      invariant dash == (i > 0 && !Plain(value[i - 1]))
    {
      var r := value[i];
      ghost var was, gap := out, dash;
      if Plain(r) {
        if dash && |out| > 0 && |out| < LIMIT {
          out := out + "-";
        }
        dash := false;
        if |out| < LIMIT {
          out := out + [r];
        }
      } else {
        dash := true;
      }
      assert out == Written(was, gap, r);
      OneMoreRune(value, i);
    }
    assert value[..|value|] == value;
    TrimmingIsImmaterial(text, u);
    slug := NoHyphenEnd(out);
  }

  // ---------- trimming the typed text first changes nothing ----------

  lemma {:induction false} IgnoredEnd(s: string, n: nat)
    requires n <= |s| && forall i :: n <= i < |s| ==> !Plain(s[i])
    ensures Words(s) == Words(s[..n])
  {
    if n < |s| {
      IgnoredEnd(s[..|s| - 1], n);
      assert s[..|s| - 1][..n] == s[..n];
    } else {
      assert s[..n] == s;
    }
  }

  lemma {:induction false} IgnoredStart(s: string, n: nat)
    requires n <= |s| && forall i :: 0 <= i < n ==> !Plain(s[i])
    ensures Words(s) == Words(s[n..])
  {
    if n < |s| {
      var m := |s| - 1;
      IgnoredStart(s[..m], n);
      assert s[..m][n..] == s[n..][..m - n];
      if m == n {
        assert Words(s[..m]) == [];
      }
    } else {
      IgnoredEnd(s, 0);
      assert s[..0] == s[n..];
    }
  }

  lemma RightTrimIsImmaterial(text: string, u: Runes)
    requires u.Standard()
    ensures Words(Lowered(TrimRight(text, u.space), u)) == Words(Lowered(text, u))
  {
    var n := Trailing(text, u.space);
    assert Lowered(text, u)[..n] == Lowered(text[..n], u);
    IgnoredEnd(Lowered(text, u), n);
  }

  lemma LeftTrimIsImmaterial(text: string, u: Runes)
    requires u.Standard()
    ensures Words(Lowered(TrimLeft(text, u.space), u)) == Words(Lowered(text, u))
  {
    var n := Leading(text, u.space);
    assert Lowered(text, u)[n..] == Lowered(text[n..], u);
    IgnoredStart(Lowered(text, u), n);
  }

  lemma TrimmingIsImmaterial(text: string, u: Runes)
    requires u.Standard()
    ensures Words(Lowered(Trim(text, u.space), u)) == Words(Lowered(text, u))
  {
    RightTrimIsImmaterial(text, u);
    LeftTrimIsImmaterial(TrimRight(text, u.space), u);
  }

  // ---------- the words are the maximal runs of letters and digits ----------

  predicate AllPlain(s: string) { forall i :: 0 <= i < |s| ==> Plain(s[i]) }

  predicate Gap(s: string) { forall i :: 0 <= i < |s| ==> !Plain(s[i]) }

  /** The last word is s[n..m]: a run of letters and digits that goes on in neither direction, with
      no other one behind it. */
  predicate LastRun(s: string, n: nat, m: nat, word: string) {
    n < m <= |s| && s[n..m] == word && AllPlain(word) && Gap(s[m..]) && (n > 0 ==> !Plain(s[n - 1]))
  }

  /** The words are the runs of letters and digits of the text, in order, each as long as it can be. */
  ghost predicate AreTheRuns(s: string, words: seq<string>)
    decreases |words|
  {
    if words == [] then Gap(s)
    else
      var last := |words| - 1;
      exists n: nat, m: nat :: LastRun(s, n, m, words[last]) && AreTheRuns(s[..n], words[..last])
  }

  /** A run at the end of a text is its last word. */
  lemma {:induction false} RunIsLastWord(s: string, n: nat)
    requires n < |s| && AllPlain(s[n..]) && (n > 0 ==> !Plain(s[n - 1]))
    ensures Words(s) == Words(s[..n]) + [s[n..]]
    decreases |s|
  {
    var m := |s| - 1;
    assert Plain(s[n..][m - n]);
    if n < m {
      var t := s[..m];
      assert t[n..] == s[n..][..m - n] && t[..n] == s[..n] && s[n..] == t[n..] + [s[m]];
      RunIsLastWord(t, n);
      assert Plain(s[n..][m - 1 - n]);
    } else {
      assert s[n..] == [s[m]];
    }
  }

  lemma LastRunIsLastWord(s: string, n: nat, m: nat, word: string)
    requires LastRun(s, n, m, word)
    ensures Words(s) == Words(s[..n]) + [word]
  {
    assert forall i :: m <= i < |s| ==> s[i] == s[m..][i - m];
    IgnoredEnd(s, m);
    var t := s[..m];
    assert t[n..] == s[n..m] && t[..n] == s[..n];
    RunIsLastWord(t, n);
  }

  lemma {:induction false} RunsAreWords(s: string, words: seq<string>)
    requires AreTheRuns(s, words)
    ensures Words(s) == words
    decreases |words|
  {
    if words == [] {
      IgnoredEnd(s, 0);
    } else {
      var last := |words| - 1;
      var n: nat, m: nat :| LastRun(s, n, m, words[last]) && AreTheRuns(s[..n], words[..last]);
      LastRunIsLastWord(s, n, m, words[last]);
      RunsAreWords(s[..n], words[..last]);
      assert words == words[..last] + [words[last]];
    }
  }

  lemma OneRunMore(s: string, n: nat, m: nat, before: seq<string>)
    requires n < m <= |s| && LastRun(s, n, m, s[n..m]) && AreTheRuns(s[..n], before)
    ensures AreTheRuns(s, before + [s[n..m]])
  {
    var words := before + [s[n..m]];
    assert words[..|words| - 1] == before && words[|words| - 1] == s[n..m];
  }

  lemma {:induction false} EveryTextHasRuns(s: string) returns (words: seq<string>)
    ensures AreTheRuns(s, words)
    decreases |s|
  {
    var m: nat := |s|;
    while m > 0 && !Plain(s[m - 1])
      invariant 0 <= m <= |s| && Gap(s[m..])
    {
      m := m - 1;
    }
    if m == 0 {
      words := [];
      assert s[0..] == s;
    } else {
      var n: nat := m;
      while n > 0 && Plain(s[n - 1])
        invariant 0 <= n <= m && AllPlain(s[n..m]) && (n == m ==> Plain(s[m - 1]))
      {
        n := n - 1;
      }
      var before := EveryTextHasRuns(s[..n]);
      words := before + [s[n..m]];
      OneRunMore(s, n, m, before);
    }
  }

  /** What `Words` computes: exactly the maximal runs of letters and digits, in order. */
  lemma WordsAreTheRuns(s: string, words: seq<string>)
    ensures Words(s) == words <==> AreTheRuns(s, words)
  {
    var runs := EveryTextHasRuns(s);
    RunsAreWords(s, runs);
    if AreTheRuns(s, words) {
      RunsAreWords(s, words);
    }
  }

  // ---------- normal form ----------

  predicate SlugChar(c: char) { Plain(c) || c == '-' }

  predicate NoDouble(s: string) { forall i :: 0 <= i < |s| - 1 ==> !(s[i] == '-' && s[i + 1] == '-') }

  /** Letters, digits and inner hyphens that stand alone. */
  predicate Hyphenated(s: string) {
    && (forall i :: 0 <= i < |s| ==> SlugChar(s[i]))
    && NoDouble(s)
    && (s != [] ==> s[0] != '-' && s[|s| - 1] != '-')
  }

  predicate InNormalForm(s: string) { |s| <= LIMIT && Hyphenated(s) }

  lemma HyphenatedGrows(s: string, c: char)
    requires Hyphenated(s) && Plain(c)
    ensures Hyphenated(s + [c])
    ensures s != [] ==> Hyphenated(s + "-" + [c])
  {
  }

  lemma {:induction false} KeptIsHyphenated(s: string)
    ensures Hyphenated(Kept(s))
  {
    if s != [] {
      var n := |s| - 1;
      KeptIsHyphenated(s[..n]);
      KeptGrows(s);
      if Plain(s[n]) {
        HyphenatedGrows(Kept(s[..n]), s[n]);
      }
    }
  }

  function Bare(s: string): string {
    if s != [] && s[|s| - 1] == '-' then s[..|s| - 1] else s
  }

  lemma BareGrows(s: string, c: char)
    requires SlugChar(c) && (s == [] ==> c != '-')
    requires s != [] ==> s[0] != '-' && SlugChar(s[|s| - 1]) && !(s[|s| - 1] == '-' == c)
    ensures Bare(s + [c]) == Extended(Bare(s), s != [] && !Plain(s[|s| - 1]), c)
  {
    if s != [] && s[|s| - 1] == '-' {
      assert s == s[..|s| - 1] + "-";
    } else if c == '-' {
      assert (s + [c])[..|s|] == s;
    }
  }

  predicate StartsHyphenated(s: string) {
    (forall i :: 0 <= i < |s| ==> SlugChar(s[i])) && NoDouble(s) && (s != [] ==> s[0] != '-')
  }

  lemma StartIsLonger(s: string, n: nat)
    requires StartsHyphenated(s) && n + 1 == |s|
    ensures StartsHyphenated(s[..n])
    ensures Bare(s) == Extended(Bare(s[..n]), n > 0 && !Plain(s[n - 1]), s[n])
  {
    BareGrows(s[..n], s[n]);
    assert s == s[..n] + [s[n]];
  }

  /** Text that is already letters, digits and single inner hyphens is its words joined. */
  lemma {:induction false} KeptInverts(s: string)
    requires StartsHyphenated(s)
    ensures Kept(s) == Bare(s)
  {
    if s != [] {
      StartIsLonger(s, |s| - 1);
      KeptInverts(s[..|s| - 1]);
      KeptGrows(s);
    }
  }

  lemma HyphenatedStart(s: string, n: nat)
    requires Hyphenated(s) && 0 <= n <= |s| && (n > 0 ==> s[n - 1] != '-')
    ensures Hyphenated(s[..n])
  {
  }

  lemma TrimIsNothing(s: string)
    requires s != [] ==> s[0] != '-' && s[|s| - 1] != '-'
    ensures TrimRight(s, Hyphen) == TrimLeft(s, Hyphen) == NoHyphenEnd(s) == s
  {
    assert Trailing(s, Hyphen) == |s| && Leading(s, Hyphen) == 0;
  }

  lemma TrimIsOneHyphen(s: string)
    requires s != [] && s[0] != '-'
    ensures NoHyphenEnd(s + "-") == NoHyphenEnd(s)
  {
    assert (s + "-")[..|s|] == s;
    assert Trailing(s + "-", Hyphen) == Trailing(s, Hyphen);
  }

  lemma CutIsTrimmed(s: string)
    requires Hyphenated(s)
    ensures InNormalForm(NoHyphenEnd(Cut(s)))
    ensures |s| <= LIMIT ==> NoHyphenEnd(Cut(s)) == s
    ensures |s| > LIMIT ==> NoHyphenEnd(Cut(s)) == if s[LIMIT - 1] == '-' then s[..LIMIT - 1] else s[..LIMIT]
  {
    if |s| > LIMIT && s[LIMIT - 1] == '-' {
      HyphenatedStart(s, LIMIT - 1);
      assert s[..LIMIT] == s[..LIMIT - 1] + "-";
      TrimIsOneHyphen(s[..LIMIT - 1]);
      TrimIsNothing(s[..LIMIT - 1]);
    } else {
      HyphenatedStart(s, |Cut(s)|);
      assert Cut(s) == s[..|Cut(s)|];
      TrimIsNothing(Cut(s));
    }
  }

  /** Every typed text becomes a slug in normal form. */
  lemma NormalIsInNormalForm(s: string, u: Runes)
    ensures InNormalForm(Normal(s, u))
  {
    KeptIsHyphenated(Lowered(s, u));
    CutIsTrimmed(Kept(Lowered(s, u)));
  }

  /** Nothing is lost but what does not fit: the slug is the start of the joined words, all of them if
      they fit into 48 characters, and else 48 of them, or 47 where the cut falls behind a hyphen. */
  lemma NormalKeepsWhatFits(s: string, u: Runes)
    ensures var all, slug := Joined(Words(Lowered(s, u))), Normal(s, u);
            && slug <= all
            && (|all| <= LIMIT ==> slug == all)
            && (|all| > LIMIT ==> |slug| == if all[LIMIT - 1] == '-' then LIMIT - 1 else LIMIT)
  {
    KeptIsHyphenated(Lowered(s, u));
    CutIsTrimmed(Kept(Lowered(s, u)));
  }

  /** A string is left alone exactly when it is in normal form already. */
  lemma FixedIffInNormalForm(s: string, u: Runes)
    requires u.Standard()
    ensures Normal(s, u) == s <==> InNormalForm(s)
  {
    NormalIsInNormalForm(s, u);
    if InNormalForm(s) {
      assert Lowered(s, u) == s;
      KeptInverts(s);
      CutIsTrimmed(s);
    }
  }

  lemma NormalIsIdempotent(s: string, u: Runes)
    requires u.Standard()
    ensures Normal(Normal(s, u), u) == Normal(s, u)
  {
    NormalIsInNormalForm(s, u);
    FixedIffInNormalForm(Normal(s, u), u);
  }

  // ---------- the validator ----------

  const RESERVED := {"api", "app", "www", "admin", "billing", "control", "relay", "eu-relay", "us-relay", "ap-relay",
                     "status", "support", "security", "mail", "smtp", "staging", "dev"}

  datatype Verdict = Ok | BadSyntax | DoubleHyphen | Reserved

  /** ^[a-z0-9][a-z0-9-]{1,46}[a-z0-9]$ */
  predicate MatchesPattern(s: string) {
    && 3 <= |s| <= 48
    && Plain(s[0]) && Plain(s[|s| - 1])
    && forall i :: 1 <= i < |s| - 1 ==> SlugChar(s[i])
  }

  function ValidateSlug(s: string, u: Runes): Verdict {
    if s != Lowered(s, u) || !MatchesPattern(s) then BadSyntax
    else if !NoDouble(s) then DoubleHyphen
    else if s in RESERVED then Reserved
    else Ok
  }

  /** The validator accepts the normal forms of at least three characters that are not reserved; it
      reports a reserved name for the reserved ones among them, and a double hyphen exactly for what
      would be one of them if its hyphens stood alone. */
  lemma ValidIffNormal(s: string, u: Runes)
    requires u.Standard()
    ensures ValidateSlug(s, u) == Ok <==> InNormalForm(s) && |s| >= 3 && s !in RESERVED
    ensures ValidateSlug(s, u) == Reserved <==> InNormalForm(s) && |s| >= 3 && s in RESERVED
    ensures ValidateSlug(s, u) == DoubleHyphen <==>
              3 <= |s| <= LIMIT && (forall i :: 0 <= i < |s| ==> SlugChar(s[i]))
              && s[0] != '-' && s[|s| - 1] != '-' && !NoDouble(s)
  {
    if (forall i :: 0 <= i < |s| ==> SlugChar(s[i])) {
      assert Lowered(s, u) == s;
    }
    if MatchesPattern(s) {
      assert forall i :: 0 <= i < |s| ==> i == 0 || i == |s| - 1 || SlugChar(s[i]);
    }
  }

  /** A normalised name fails validation only by being too short or reserved. */
  lemma NormalisedVerdict(s: string, u: Runes)
    requires u.Standard()
    ensures ValidateSlug(Normal(s, u), u)
         == if |Normal(s, u)| < 3 then BadSyntax else if Normal(s, u) in RESERVED then Reserved else Ok
  {
    NormalIsInNormalForm(s, u);
    var slug := Normal(s, u);
    assert Lowered(slug, u) == slug;
  }

  /** Typing a valid slug gives that slug. */
  lemma ValidIsFixed(s: string, u: Runes)
    requires u.Standard() && ValidateSlug(s, u) == Ok
    ensures Normal(s, u) == s
  {
    ValidIffNormal(s, u);
    FixedIffInNormalForm(s, u);
  }
}
