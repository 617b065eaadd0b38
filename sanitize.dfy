/**
 * removeTagsAndShorten: turns a stored field value into a one-line menu label of at
 * most 35 characters. The chain of String.prototype.replace calls is modelled step by
 * step, each step by what its regular expression matches:
 *   1. /<\/?[^>]+(>|$)/g -> ""   a '<', then at least one character other than '>'
 *                                (as many as there are), then the '>' if there is one;
 *   2. /[\t\r\n]+/g -> " "       every run of tabs, carriage returns and line feeds;
 *   3. '&nbsp;' -> " "           a string pattern: only the first occurrence;
 *   4. /\s\s+/g -> " "           every run of two or more white-space characters;
 *   5. trim()                    leading and trailing white space.
 * The functions carry only the facts their definitions need; what each step guarantees
 * is proved in the lemma that follows it.
 */
module Sanitize {
  import opened Wrappers
  import opened Strings

  const MAX_LENGTH_EDITFIELD_ITEM := 35
  const ELLIPSIS := "..."
  const NBSP_ENTITY := "&nbsp;"

  predicate IsLineBreak(c: char)
  {
    c == '\t' || c == '\r' || c == '\n'
  }

  /** No tab, carriage return or line feed. */
  predicate SingleLine(s: string)
  {
    forall i :: 0 <= i < |s| ==> !IsLineBreak(s[i])
  }

  /** Every '<' is either the last character or directly followed by '>': nothing the tag pattern matches. */
  predicate NoTag(s: string)
  {
    forall i :: 0 <= i < |s| - 1 && s[i] == '<' ==> s[i + 1] == '>'
  }

  /** No two adjacent white-space characters. */
  predicate NoWhitespaceRun(s: string)
  {
    forall i :: 0 <= i < |s| - 1 && IsWhitespace(s[i]) ==> !IsWhitespace(s[i + 1])
  }

  /** Neither starts nor ends with white space. */
  predicate Trimmed(s: string)
  {
    s == [] || (!IsWhitespace(s[0]) && !IsWhitespace(s[|s| - 1]))
  }

  lemma TailKeepsProperties(s: string)
    requires |s| > 0
    ensures SingleLine(s) ==> SingleLine(s[1..])
    ensures NoTag(s) ==> NoTag(s[1..])
    ensures NoWhitespaceRun(s) ==> NoWhitespaceRun(s[1..])
  {
    forall i | 0 <= i < |s| - 1 ensures s[1..][i] == s[i + 1] {
    }
  }

  lemma ConsKeepsSingleLine(c: char, s: string)
    requires !IsLineBreak(c) && SingleLine(s)
    ensures SingleLine([c] + s)
  {
    forall i | 0 < i < |s| + 1 ensures ([c] + s)[i] == s[i - 1] {
    }
  }

  lemma ConsKeepsNoTag(c: char, s: string)
    requires NoTag(s)
    requires c == '<' ==> s == [] || s[0] == '>'
    ensures NoTag([c] + s)
  {
    forall i | 0 < i < |s| + 1 ensures ([c] + s)[i] == s[i - 1] {
    }
  }

  lemma SliceKeepsProperties(s: string, i: int, j: int)
    requires 0 <= i <= j <= |s|
    ensures SingleLine(s) ==> SingleLine(s[i..j])
    ensures NoWhitespaceRun(s) ==> NoWhitespaceRun(s[i..j])
  {
    forall k | 0 <= k < j - i ensures s[i..j][k] == s[i + k] {
    }
  }

  // ---------------------------------------------------------------------------
  // Step 1: tags

  /** Length of the leading run of characters other than '>' (what [^>]+ consumes). */
  function TagBodyLength(s: string): (n: nat)
    ensures n <= |s|
    ensures n < |s| ==> s[n] == '>'
    decreases |s|
  {
    if s == [] || s[0] == '>' then 0 else 1 + TagBodyLength(s[1..])
  }

  function StripTags(s: string): (r: string)
    decreases |s|
  {
    if s == [] then []
    else if s[0] == '<' && |s| > 1 && s[1] != '>' then
      var rest := s[1 + TagBodyLength(s[1..])..];
      StripTags(if rest == [] then [] else rest[1..])
    else [s[0]] + StripTags(s[1..])
  }

  /** No tag survives step 1, a value without tags passes unchanged, and the first non-'<' character stays first. */
  lemma {:induction false} StripTagsProperties(s: string)
    ensures NoTag(StripTags(s))
    ensures NoTag(s) ==> StripTags(s) == s
    ensures |s| > 0 && s[0] != '<' ==> |StripTags(s)| > 0 && StripTags(s)[0] == s[0]
    decreases |s|
  {
    if s == [] {
    } else if s[0] == '<' && |s| > 1 && s[1] != '>' {
      var rest := s[1 + TagBodyLength(s[1..])..];
      StripTagsProperties(if rest == [] then [] else rest[1..]);
    } else {
      var tail := StripTags(s[1..]);
      StripTagsProperties(s[1..]);
      TailKeepsProperties(s);
      assert StripTags(s) == [s[0]] + tail;
      ConsKeepsNoTag(s[0], tail);
    }
  }

  // ---------------------------------------------------------------------------
  // Step 2: line breaks

  /** Length of the leading run of tabs, carriage returns and line feeds. */
  function LineBreakRun(s: string): (n: nat)
    ensures n <= |s|
    ensures n < |s| ==> !IsLineBreak(s[n])
    decreases |s|
  {
    if s == [] || !IsLineBreak(s[0]) then 0 else 1 + LineBreakRun(s[1..])
  }

  function CollapseLineBreaks(s: string): (r: string)
    decreases |s|
  {
    if s == [] then []
    else if IsLineBreak(s[0]) then [' '] + CollapseLineBreaks(s[LineBreakRun(s)..])
    else [s[0]] + CollapseLineBreaks(s[1..])
  }

  /** After step 2 the text is one line, and a one-line text passes unchanged. */
  lemma {:induction false} CollapseLineBreaksProperties(s: string)
    ensures SingleLine(CollapseLineBreaks(s))
    ensures SingleLine(s) ==> CollapseLineBreaks(s) == s
    decreases |s|
  {
    if s == [] {
    } else if IsLineBreak(s[0]) {
      var rest := CollapseLineBreaks(s[LineBreakRun(s)..]);
      CollapseLineBreaksProperties(s[LineBreakRun(s)..]);
      ConsKeepsSingleLine(' ', rest);
    } else {
      CollapseLineBreaksProperties(s[1..]);
      TailKeepsProperties(s);
      ConsKeepsSingleLine(s[0], CollapseLineBreaks(s[1..]));
    }
  }

  // ---------------------------------------------------------------------------
  // Step 3: the first "&nbsp;"

  lemma ReplaceFirstKeepsSingleLine(s: string)
    requires SingleLine(s)
    ensures SingleLine(ReplaceFirst(s, NBSP_ENTITY, " "))
  {
    var r := ReplaceFirst(s, NBSP_ENTITY, " ");
    if IndexOf(s, NBSP_ENTITY).Some? {
      var i := IndexOf(s, NBSP_ENTITY).value;
      forall j | 0 <= j < |r| ensures !IsLineBreak(r[j]) {
        if j < i {
          assert r[j] == r[..i][j] == s[..i][j];
        } else if j == i {
          assert r[j] == r[i..i + 1][0];
        } else {
          assert r[j] == r[i + 1..][j - i - 1] == s[i + 6..][j - i - 1];
        }
      }
    }
  }

  // ---------------------------------------------------------------------------
  // Step 4: runs of white space

  /** Length of the leading run of white space. */
  function WhitespaceRun(s: string): (n: nat)
    ensures n <= |s|
    ensures n < |s| ==> !IsWhitespace(s[n])
    decreases |s|
  {
    if s == [] || !IsWhitespace(s[0]) then 0 else 1 + WhitespaceRun(s[1..])
  }

  function CollapseWhitespaceRuns(s: string): (r: string)
    decreases |s|
  {
    if s == [] then []
    else if IsWhitespace(s[0]) && |s| > 1 && IsWhitespace(s[1]) then
      [' '] + CollapseWhitespaceRuns(s[WhitespaceRun(s)..])
    else [s[0]] + CollapseWhitespaceRuns(s[1..])
  }

  lemma ConsKeepsNoWhitespaceRun(c: char, s: string)
    requires NoWhitespaceRun(s)
    requires s == [] || !IsWhitespace(c) || !IsWhitespace(s[0])
    ensures NoWhitespaceRun([c] + s)
  {
    forall i | 0 < i < |s| + 1 ensures ([c] + s)[i] == s[i - 1] {
    }
  }

  /** A text that starts with a non-white character keeps it first. */
  lemma CollapseKeepsFirst(s: string)
    requires |s| > 0 && !IsWhitespace(s[0])
    ensures |CollapseWhitespaceRuns(s)| > 0 && CollapseWhitespaceRuns(s)[0] == s[0]
  {
  }

  lemma {:induction false} CollapseLeavesNoRun(s: string)
    ensures NoWhitespaceRun(CollapseWhitespaceRuns(s))
    decreases |s|
  {
    if s == [] {
    } else if IsWhitespace(s[0]) && |s| > 1 && IsWhitespace(s[1]) {
      var n := WhitespaceRun(s);
      CollapseLeavesNoRun(s[n..]);
      if n < |s| {
        CollapseKeepsFirst(s[n..]);
      }
      ConsKeepsNoWhitespaceRun(' ', CollapseWhitespaceRuns(s[n..]));
    } else {
      CollapseLeavesNoRun(s[1..]);
      if |s| > 1 && !IsWhitespace(s[1]) {
        CollapseKeepsFirst(s[1..]);
      }
      ConsKeepsNoWhitespaceRun(s[0], CollapseWhitespaceRuns(s[1..]));
    }
  }

  lemma {:induction false} CollapseKeepsSingleLine(s: string)
    requires SingleLine(s)
    ensures SingleLine(CollapseWhitespaceRuns(s))
    decreases |s|
  {
    if s == [] {
    } else if IsWhitespace(s[0]) && |s| > 1 && IsWhitespace(s[1]) {
      var n := WhitespaceRun(s);
      SliceKeepsProperties(s, n, |s|);
      assert s[n..|s|] == s[n..];
      CollapseKeepsSingleLine(s[n..]);
      ConsKeepsSingleLine(' ', CollapseWhitespaceRuns(s[n..]));
    } else {
      TailKeepsProperties(s);
      CollapseKeepsSingleLine(s[1..]);
      ConsKeepsSingleLine(s[0], CollapseWhitespaceRuns(s[1..]));
    }
  }

  lemma {:induction false} CollapseWithoutRuns(s: string)
    requires NoWhitespaceRun(s)
    ensures CollapseWhitespaceRuns(s) == s
    decreases |s|
  {
    if s != [] {
      assert !(IsWhitespace(s[0]) && |s| > 1 && IsWhitespace(s[1]));
      TailKeepsProperties(s);
      CollapseWithoutRuns(s[1..]);
    }
  }

  /**
   * After step 4 no two white-space characters are adjacent; a non-white first character
   * stays first; line breaks are not introduced; a text without runs passes unchanged.
   */
  lemma CollapseWhitespaceRunsProperties(s: string)
    ensures NoWhitespaceRun(CollapseWhitespaceRuns(s))
    ensures |s| > 0 && !IsWhitespace(s[0]) ==>
      |CollapseWhitespaceRuns(s)| > 0 && CollapseWhitespaceRuns(s)[0] == s[0]
    ensures SingleLine(s) ==> SingleLine(CollapseWhitespaceRuns(s))
    ensures NoWhitespaceRun(s) ==> CollapseWhitespaceRuns(s) == s
  {
    CollapseLeavesNoRun(s);
    if |s| > 0 && !IsWhitespace(s[0]) {
      CollapseKeepsFirst(s);
    }
    if SingleLine(s) {
      CollapseKeepsSingleLine(s);
    }
    if NoWhitespaceRun(s) {
      CollapseWithoutRuns(s);
    }
  }

  // ---------------------------------------------------------------------------
  // Step 5: trim

  function TrimStart(s: string): (r: string)
    decreases |s|
  {
    if s != [] && IsWhitespace(s[0]) then TrimStart(s[1..]) else s
  }

  function TrimEnd(s: string): (r: string)
    decreases |s|
  {
    if s != [] && IsWhitespace(s[|s| - 1]) then TrimEnd(s[..|s| - 1]) else s
  }

  /** String.prototype.trim */
  function Trim(s: string): string
  {
    TrimEnd(TrimStart(s))
  }

  lemma {:induction false} TrimStartProperties(s: string)
    ensures var r := TrimStart(s);
      && |r| <= |s| && r == s[|s| - |r|..]
      && (r == [] || !IsWhitespace(r[0]))
      && (s == [] || !IsWhitespace(s[0]) ==> r == s)
    decreases |s|
  {
    if s != [] && IsWhitespace(s[0]) {
      TrimStartProperties(s[1..]);
    }
  }

  lemma {:induction false} TrimEndProperties(s: string)
    ensures var r := TrimEnd(s);
      && |r| <= |s| && r == s[..|r|]
      && (r == [] || !IsWhitespace(r[|r| - 1]))
      && (s == [] || !IsWhitespace(s[|s| - 1]) ==> r == s)
    decreases |s|
  {
    if s != [] && IsWhitespace(s[|s| - 1]) {
      TrimEndProperties(s[..|s| - 1]);
    }
  }

  /** trim() returns a slice of its input. */
  lemma TrimIsSlice(s: string) returns (i: nat)
    ensures i + |Trim(s)| <= |s| && Trim(s) == s[i..i + |Trim(s)|]
  {
    var t := TrimStart(s);
    var r := TrimEnd(t);
    TrimStartProperties(s);
    TrimEndProperties(t);
    i := |s| - |t|;
    assert r == s[i..][..|r|];
  }

  /** trim() leaves no white space at either end and keeps a text that has none. */
  lemma TrimEnds(s: string)
    ensures Trimmed(Trim(s))
    ensures Trimmed(s) ==> Trim(s) == s
  {
    var t := TrimStart(s);
    var r := TrimEnd(t);
    TrimStartProperties(s);
    TrimEndProperties(t);
    if r != [] {
      assert r[0] == t[0];
    }
    if Trimmed(s) && s != [] {
      assert t == s;
    }
  }

  /** trim() leaves a slice of its input with no white space at either end, and keeps a trimmed text. */
  lemma TrimProperties(s: string)
    ensures Trimmed(Trim(s))
    ensures SingleLine(s) ==> SingleLine(Trim(s))
    ensures NoWhitespaceRun(s) ==> NoWhitespaceRun(Trim(s))
    ensures Trimmed(s) ==> Trim(s) == s
  {
    var i := TrimIsSlice(s);
    SliceKeepsProperties(s, i, i + |Trim(s)|);
    TrimEnds(s);
  }

  // ---------------------------------------------------------------------------
  // The whole chain

  /** The value after the five replacement steps, before shortening. */
  function Cleaned(value: string): string
  {
    Trim(CollapseWhitespaceRuns(ReplaceFirst(CollapseLineBreaks(StripTags(value)), NBSP_ENTITY, " ")))
  }

  /** The cleaned value is one line, has no white-space runs and no white space at either end. */
  lemma CleanedProperties(value: string)
    ensures SingleLine(Cleaned(value))
    ensures NoWhitespaceRun(Cleaned(value))
    ensures Trimmed(Cleaned(value))
  {
    var s2 := CollapseLineBreaks(StripTags(value));
    CollapseLineBreaksProperties(StripTags(value));
    ReplaceFirstKeepsSingleLine(s2);
    var s4 := CollapseWhitespaceRuns(ReplaceFirst(s2, NBSP_ENTITY, " "));
    CollapseWhitespaceRunsProperties(ReplaceFirst(s2, NBSP_ENTITY, " "));
    TrimProperties(s4);
  }

  /** The length cap: 35 characters at most, the first 32 followed by "..." when longer. */
  function Shorten(str: string): (r: string)
    ensures |r| <= MAX_LENGTH_EDITFIELD_ITEM
    ensures |str| <= MAX_LENGTH_EDITFIELD_ITEM ==> r == str
    ensures |str| > MAX_LENGTH_EDITFIELD_ITEM ==>
      |r| == MAX_LENGTH_EDITFIELD_ITEM && r[..MAX_LENGTH_EDITFIELD_ITEM - 3] == str[..MAX_LENGTH_EDITFIELD_ITEM - 3]
      && r[MAX_LENGTH_EDITFIELD_ITEM - 3..] == ELLIPSIS
  {
    if |str| > MAX_LENGTH_EDITFIELD_ITEM then str[..MAX_LENGTH_EDITFIELD_ITEM - 3] + ELLIPSIS else str
  }

  /**
   * removeTagsAndShorten: a label of at most 35 characters on one line, empty exactly
   * when nothing is left of the value once cleaned.
   */
  function RemoveTagsAndShorten(value: string): (r: string)
    ensures |r| <= MAX_LENGTH_EDITFIELD_ITEM
    ensures SingleLine(r)
    ensures r == "" <==> Cleaned(value) == ""
  {
    var str := Cleaned(value);
    CleanedProperties(value);
    var r := Shorten(str);
    assert SingleLine(r) by {
      forall i | 0 <= i < |r| ensures !IsLineBreak(r[i]) {
        if |str| > MAX_LENGTH_EDITFIELD_ITEM && i < MAX_LENGTH_EDITFIELD_ITEM - 3 {
          assert r[i] == r[..MAX_LENGTH_EDITFIELD_ITEM - 3][i] == str[i];
        } else if |str| > MAX_LENGTH_EDITFIELD_ITEM {
          assert r[i] == r[MAX_LENGTH_EDITFIELD_ITEM - 3..][i - (MAX_LENGTH_EDITFIELD_ITEM - 3)];
        }
      }
    }
    r
  }

  /** A value that is already one clean line comes back unchanged, shortened only when too long. */
  lemma CleanValueKept(value: string)
    requires NoTag(value) && SingleLine(value) && IndexOf(value, NBSP_ENTITY).None?
    requires NoWhitespaceRun(value) && Trimmed(value)
    ensures Cleaned(value) == value
    ensures |value| <= MAX_LENGTH_EDITFIELD_ITEM ==> RemoveTagsAndShorten(value) == value
    ensures |value| > MAX_LENGTH_EDITFIELD_ITEM ==>
      RemoveTagsAndShorten(value) == value[..MAX_LENGTH_EDITFIELD_ITEM - 3] + ELLIPSIS
  {
    StripTagsProperties(value);
    CollapseLineBreaksProperties(value);
    CollapseWhitespaceRunsProperties(value);
    TrimProperties(value);
  }
}
