/** Turning a node id into a host label (src/portal/dns-manager.ts, sanitizeNodeIdForDns).
    A host label is as in section 2.3.1 of RFC 1035, relaxed by section 2.1 of RFC 1123. */
module DnsLabel {
  import opened Prelude

  const MAX_LABEL := 63

  predicate LetterOrDigit(c: char) {
    'a' <= c <= 'z' || '0' <= c <= '9'
  }

  predicate LabelChar(c: char) {
    LetterOrDigit(c) || c == '-'
  }

  // The passes of the source, in order.

  /** Everything that may not stand in a label becomes a hyphen. */
  function Replace(s: string): string {
    seq(|s|, i requires 0 <= i < |s| => if LabelChar(s[i]) then s[i] else '-')
  }

  /** Neighbouring hyphens are merged into one. */
  function Collapse(s: string): string {
    if s == "" then ""
    else
      var r := Collapse(s[..|s| - 1]);
      if s[|s| - 1] == '-' && r != "" && r[|r| - 1] == '-' then r else r + [s[|s| - 1]]
  }

  /** Hyphens at the start, and then at the end, are dropped. */
  function TrimStart(s: string): string {
    if s != "" && s[0] == '-' then TrimStart(s[1..]) else s
  }

  function TrimEnd(s: string): string {
    if s != "" && s[|s| - 1] == '-' then TrimEnd(s[..|s| - 1]) else s
  }

  /** What is too long for a label is cut off. */
  function Cut(s: string): string {
    if |s| > MAX_LABEL then s[..MAX_LABEL] else s
  }

  function Passes(s: string): string {
    TrimEnd(Cut(TrimEnd(TrimStart(Collapse(Replace(s))))))
  }

  /** `lower` is toLowerCase. */
  function Sanitize(nodeId: string, lower: string -> string): string {
    var sanitized := Passes(lower(nodeId));
    if sanitized != "" then sanitized else "node"
  }

  // ---------------------------------------------------------------- valid labels

  ghost predicate Clean(s: string) {
    && (forall i :: 0 <= i < |s| ==> LabelChar(s[i]))
    && forall i :: 0 < i < |s| ==> !(s[i - 1] == '-' && s[i] == '-')
  }

  predicate NoHyphenAtStart(s: string) {
    s == "" || s[0] != '-'
  }

  predicate NoHyphenAtEnd(s: string) {
    s == "" || s[|s| - 1] != '-'
  }

  ghost predicate ValidLabel(s: string) {
    1 <= |s| <= 63 && Clean(s) && NoHyphenAtStart(s) && NoHyphenAtEnd(s)
  }

  lemma {:induction false} CollapseCleans(s: string)
    requires forall i :: 0 <= i < |s| ==> LabelChar(s[i])
    ensures Clean(Collapse(s))
    ensures s != "" ==> Collapse(s) != "" && Collapse(s)[|Collapse(s)| - 1] == s[|s| - 1]
  {
    if s != "" {
      var n := |s| - 1;
      CollapseCleans(s[..n]);
      var r := Collapse(s[..n]);
    }
  }

  lemma {:induction false} TrimStartTrims(s: string)
    requires Clean(s)
    ensures Clean(TrimStart(s)) && NoHyphenAtStart(TrimStart(s)) && |TrimStart(s)| <= |s|
    decreases |s|
  {
    if s != "" && s[0] == '-' {
      TrimStartTrims(s[1..]);
    }
  }

  lemma {:induction false} TrimEndTrims(s: string)
    requires Clean(s)
    ensures Clean(TrimEnd(s)) && NoHyphenAtEnd(TrimEnd(s)) && |TrimEnd(s)| <= |s|
    ensures NoHyphenAtStart(s) ==> NoHyphenAtStart(TrimEnd(s))
    decreases |s|
  {
    if s != "" && s[|s| - 1] == '-' {
      TrimEndTrims(s[..|s| - 1]);
    }
  }

  lemma PassesClean(s: string)
    ensures var r := Passes(s); Clean(r) && NoHyphenAtStart(r) && NoHyphenAtEnd(r) && |r| <= MAX_LABEL
  {
    CollapseCleans(Replace(s));
    TrimStartTrims(Collapse(Replace(s)));
    TrimEndTrims(TrimStart(Collapse(Replace(s))));
    TrimEndTrims(Cut(TrimEnd(TrimStart(Collapse(Replace(s))))));
  }

  /** Whatever the node id, the result is a valid host label. */
  lemma SanitizeIsValid(nodeId: string, lower: string -> string)
    ensures ValidLabel(Sanitize(nodeId, lower))
  {
    PassesClean(lower(nodeId));
    assert Clean("node");
  }

  // ---------------------------------------------------------------- valid labels are left alone

  lemma {:induction false} CollapseKeepsClean(s: string)
    requires Clean(s)
    ensures Collapse(s) == s
  {
    if s != "" {
      var n := |s| - 1;
      CollapseKeepsClean(s[..n]);
      assert s == s[..n] + [s[n]];
    }
  }

  lemma PassesKeepValid(s: string)
    requires ValidLabel(s)
    ensures Passes(s) == s
  {
    assert Replace(s) == s;
    CollapseKeepsClean(s);
  }

  /** Lower-casing leaves text alone that is already made of label characters. */
  ghost predicate FixesLabels(lower: string -> string) {
    forall s :: (forall i :: 0 <= i < |s| ==> LabelChar(s[i])) ==> lower(s) == s
  }

  /** The fixed points of sanitizing are exactly the valid labels. */
  lemma FixedPointsAreLabels(s: string, lower: string -> string)
    requires FixesLabels(lower)
    ensures Sanitize(s, lower) == s <==> ValidLabel(s)
  {
    SanitizeIsValid(s, lower);
    if ValidLabel(s) {
      PassesKeepValid(s);
    }
  }

  /** Sanitizing twice is sanitizing once. */
  lemma SanitizeIdempotent(nodeId: string, lower: string -> string)
    requires FixesLabels(lower)
    ensures Sanitize(Sanitize(nodeId, lower), lower) == Sanitize(nodeId, lower)
  {
    SanitizeIsValid(nodeId, lower);
    FixedPointsAreLabels(Sanitize(nodeId, lower), lower);
  }

  // ---------------------------------------------------------------- the words of an id

  /** The maximal runs of letters and digits. */
  function Words(s: string): seq<string> {
    if s == "" then []
    else
      var n := |s| - 1;
      var words := Words(s[..n]);
      if !LetterOrDigit(s[n]) then words
      else if n > 0 && LetterOrDigit(s[n - 1]) && words != []
      then words[..|words| - 1] + [words[|words| - 1] + [s[n]]]
      else words + [[s[n]]]
  }

  predicate EndsInWord(s: string) {
    s != "" && LetterOrDigit(s[|s| - 1])
  }

  lemma {:induction false} WordsEnd(s: string)
    ensures EndsInWord(s) ==> Words(s) != []
    ensures var j := Joined(Words(s), "-");
            Words(s) != [] <==> j != "" && LetterOrDigit(j[|j| - 1])
  {
    if s != "" {
      WordsEnd(s[..|s| - 1]);
      if LetterOrDigit(s[|s| - 1]) {
        WordsGrow(s[..|s| - 1], s[|s| - 1]);
      }
    }
  }

  /** One more letter or digit extends the last word or starts one. */
  lemma WordsGrow(s: string, c: char)
    requires LetterOrDigit(c) && (EndsInWord(s) ==> Words(s) != [])
    ensures Words(s + [c]) != []
    ensures Joined(Words(s + [c]), "-")
         == if EndsInWord(s) || Words(s) == [] then Joined(Words(s), "-") + [c] else Joined(Words(s), "-") + "-" + [c]
  {
    var t, words := s + [c], Words(s);
    assert t[..|s|] == s && (s != "" ==> t[|s| - 1] == s[|s| - 1]);
    if EndsInWord(s) {
      var m := |words| - 1;
      assert Words(t) == words[..m] + [words[m] + [c]];
      JoinedLast(words[..m], words[m]);
      JoinedLast(words[..m], words[m] + [c]);
      assert words == words[..m] + [words[m]];
    } else {
      assert Words(t) == words + [[c]];
      JoinedLast(words, [c]);
    }
  }

  lemma JoinedLast(words: seq<string>, w: string)
    ensures Joined(words + [w], "-") == if words == [] then w else Joined(words, "-") + "-" + w
  {
    assert (words + [w])[..|words|] == words;
  }

  lemma {:induction false} TrimStartAppend(s: string, c: char)
    ensures TrimStart(s + [c]) == if TrimStart(s) != "" then TrimStart(s) + [c] else if c == '-' then "" else [c]
    decreases |s|
  {
    if s == "" {
      assert s + [c] == [c] && [c][1..] == "";
    } else if s[0] == '-' {
      TrimStartAppend(s[1..], c);
      assert (s + [c])[1..] == s[1..] + [c];
    }
  }

  lemma CollapseAppend(s: string, c: char)
    ensures var r := Collapse(s); Collapse(s + [c]) == if c == '-' && r != "" && r[|r| - 1] == '-' then r else r + [c]
  {
    assert (s + [c])[..|s|] == s;
  }

  lemma ReplaceAppend(s: string, c: char)
    ensures Replace(s + [c]) == Replace(s) + [if LabelChar(c) then c else '-']
  {
  }

  lemma WordsStay(s: string, c: char)
    requires !LetterOrDigit(c)
    ensures Words(s + [c]) == Words(s)
  {
    assert (s + [c])[..|s|] == s;
  }

  /** The hyphens that the replaced text ends with have become one. */
  lemma CollapsedEnd(s: string)
    ensures var r := Collapse(Replace(s)); r != "" && r[|r| - 1] == '-' <==> s != "" && !EndsInWord(s)
    ensures Collapse(Replace(s)) == "" <==> s == ""
  {
    CollapseCleans(Replace(s));
  }

  /** What the passes make of an id up to the first trimming. */
  function Trimmed(s: string): string {
    TrimStart(Collapse(Replace(s)))
  }

  lemma TrimmedAppend(s: string, c: char)
    ensures Trimmed(s + [c])
         == if LetterOrDigit(c) then Trimmed(s) + [c]
            else if Trimmed(s) == "" || (s != "" && !EndsInWord(s)) then Trimmed(s)
            else Trimmed(s) + "-"
  {
    ReplaceAppend(s, c);
    CollapsedEnd(s);
    hide Replace, Collapse, TrimStart;
    var x := if LabelChar(c) then c else '-';
    CollapseAppend(Replace(s), x);
    TrimStartAppend(Collapse(Replace(s)), x);
  }

  /** The words are put together with hyphens, and one more hyphen is left if the id goes on behind
      the last word. */
  lemma {:induction false} TrimmedJoinsWords(s: string)
    ensures var j := Joined(Words(s), "-"); Trimmed(s) == if EndsInWord(s) || Words(s) == [] then j else j + "-"
  {
    if s != "" {
      hide Trimmed, Joined, Words;
      var n := |s| - 1;
      var before, c := s[..n], s[n];
      assert s == before + [c];
      TrimmedJoinsWords(before);
      WordsEnd(before);
      TrimmedAppend(before, c);
      if LetterOrDigit(c) {
        WordsGrow(before, c);
        NoWordsNoText(before);
      } else {
        WordsStay(before, c);
        NoWordsNoText(before);
      }
    }
  }

  lemma NoWordsNoText(s: string)
    ensures Words(s) == [] ==> Joined(Words(s), "-") == ""
  {
  }

  /** Sanitizing, in terms of the words of the lower-cased id alone: they are put together with
      hyphens and cut to 63 characters, and a hyphen left at the end is dropped; "node" stands in
      if there is none. */
  lemma SanitizeExactly(nodeId: string, lower: string -> string)
    ensures var j := Joined(Words(lower(nodeId)), "-");
            var cut := if |j| > 63 then j[..63] else j;
            var text := if cut != "" && cut[|cut| - 1] == '-' then cut[..|cut| - 1] else cut;
            Sanitize(nodeId, lower) == if text == "" then "node" else text
  {
    PassesAreWords(lower(nodeId));
  }

  lemma TrimmedTwice(s: string)
    ensures TrimEnd(Trimmed(s)) == Joined(Words(s), "-") && Clean(Joined(Words(s), "-"))
  {
    assert Clean(Trimmed(s)) by {
      CollapseCleans(Replace(s));
      TrimStartTrims(Collapse(Replace(s)));
    }
    hide Trimmed, Words, Joined, TrimEnd;
    TrimmedJoinsWords(s);
    WordsEnd(s);
    NoWordsNoText(s);
    var j, t := Joined(Words(s), "-"), Trimmed(s);
    OneHyphen(t);
    assert t == j || t[..|t| - 1] == j;
  }

  lemma PassesAreWords(s: string)
    ensures var j := Joined(Words(s), "-");
            var cut := if |j| > 63 then j[..63] else j;
            Passes(s) == if cut != "" && cut[|cut| - 1] == '-' then cut[..|cut| - 1] else cut
  {
    hide Words, Joined, TrimEnd;
    TrimmedTwice(s);
    var j := Joined(Words(s), "-");
    assert Passes(s) == TrimEnd(Cut(j));
    assert Clean(Cut(j));
    OneHyphen(Cut(j));
  }

  /** In a clean text at most one hyphen stands at the end. */
  lemma OneHyphen(s: string)
    requires Clean(s)
    ensures TrimEnd(s) == if s != "" && s[|s| - 1] == '-' then s[..|s| - 1] else s
  {
  }

  ghost predicate HasLetterOrDigit(s: string) {
    exists i :: 0 <= i < |s| && LetterOrDigit(s[i])
  }

  lemma {:induction false} WordsExist(s: string)
    ensures Words(s) != [] <==> HasLetterOrDigit(s)
  {
    if s != "" {
      var n := |s| - 1;
      WordsExist(s[..n]);
      assert HasLetterOrDigit(s[..n]) ==> HasLetterOrDigit(s) by {
        assert forall i :: 0 <= i < n ==> s[..n][i] == s[i];
      }
      assert HasLetterOrDigit(s) && !LetterOrDigit(s[n]) ==> HasLetterOrDigit(s[..n]) by {
        assert forall i :: 0 <= i < n ==> s[..n][i] == s[i];
      }
    }
  }

  /** The fallback "node" is used exactly when the lower-cased id has no letter or digit. */
  lemma FallbackExactly(s: string)
    ensures Passes(s) == "" <==> !HasLetterOrDigit(s)
  {
    hide Passes, Words;
    PassesAreWords(s);
    WordsExist(s);
    WordsEnd(s);
    WordsStart(s);
  }

  lemma {:induction false} WordsStart(s: string)
    ensures Words(s) != [] ==> var j := Joined(Words(s), "-"); j != "" && LetterOrDigit(j[0])
  {
    if s != "" {
      WordsStart(s[..|s| - 1]);
      WordsEnd(s[..|s| - 1]);
      if LetterOrDigit(s[|s| - 1]) {
        WordsGrow(s[..|s| - 1], s[|s| - 1]);
        assert s == s[..|s| - 1] + [s[|s| - 1]];
      }
    }
  }
}
