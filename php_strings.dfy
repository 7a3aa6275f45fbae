/**
 * The PHP string functions the name handling relies on, on byte strings
 * (one char per byte): trim, strtolower, str_ireplace with a list of
 * searches, and the title-case conversion, reduced to ASCII letters.
 */
module PhpStrings {

  /** The bytes trim() strips by default: space, tab, LF, CR, NUL and vertical tab. */
  predicate IsTrimmed(c: char) {
    c == ' ' || c == '\t' || c == '\n' || c == '\r' || c as int == 0 || c as int == 11
  }

  /** The first position at or after i that holds a byte trim() keeps, |s| when there is none. */
  function FirstKept(s: string, i: nat): (k: nat)
    requires i <= |s|
    ensures i <= k <= |s|
    ensures forall j :: i <= j < k ==> IsTrimmed(s[j])
    ensures k < |s| ==> !IsTrimmed(s[k])
    decreases |s| - i
  {
    if i < |s| && IsTrimmed(s[i]) then FirstKept(s, i + 1) else i
  }

  /** Just after the last position below j, and not below lo, that holds a byte trim() keeps. */
  function EndKept(s: string, lo: nat, j: nat): (k: nat)
    requires lo <= j <= |s|
    ensures lo <= k <= j
    ensures forall m :: k <= m < j ==> IsTrimmed(s[m])
    ensures k > lo ==> !IsTrimmed(s[k - 1])
    decreases j
  {
    if j > lo && IsTrimmed(s[j - 1]) then EndKept(s, lo, j - 1) else j
  }

  /**
   * trim(): the input without its leading and trailing whitespace: the part
   * s[a..b] that neither starts nor ends with a stripped byte, everything
   * dropped before a and from b on being a stripped byte.
   */
  function Trim(s: string): (r: string)
    ensures var a := FirstKept(s, 0); var b := EndKept(s, a, |s|);
      && r == s[a..b]
      && (forall i :: 0 <= i < a ==> IsTrimmed(s[i]))
      && (forall i :: b <= i < |s| ==> IsTrimmed(s[i]))
    ensures r == [] || (!IsTrimmed(r[0]) && !IsTrimmed(r[|r| - 1]))
  {
    var a := FirstKept(s, 0);
    s[a..EndKept(s, a, |s|)]
  }

  lemma TrimIdempotent(s: string)
    ensures Trim(Trim(s)) == Trim(s)
  {
    var t := Trim(s);
    if t != [] {
      assert FirstKept(t, 0) == 0;
      assert EndKept(t, 0, |t|) == |t|;
      assert t[0..|t|] == t;
    }
  }

  predicate IsUpper(c: char) {
    'A' <= c <= 'Z'
  }

  predicate IsLower(c: char) {
    'a' <= c <= 'z'
  }

  predicate IsLetter(c: char) {
    IsUpper(c) || IsLower(c)
  }

  function Lower(c: char): (r: char)
    ensures IsUpper(c) ==> IsLower(r)
    ensures !IsUpper(c) ==> r == c
  {
    if IsUpper(c) then (c as int + 32) as char else c
  }

  function Upper(c: char): (r: char)
    ensures IsLower(c) ==> IsUpper(r)
    ensures !IsLower(c) ==> r == c
  {
    if IsLower(c) then (c as int - 32) as char else c
  }

  /** strtolower(): ASCII letters lowered, every other byte kept. */
  function ToLower(s: string): (r: string)
    ensures |r| == |s|
    ensures forall i :: 0 <= i < |s| ==> r[i] == Lower(s[i])
    ensures forall i :: 0 <= i < |r| ==> !IsUpper(r[i])
  {
    seq(|s|, i requires 0 <= i < |s| => Lower(s[i]))
  }

  /** Case-insensitive equality of two byte strings, as str_ireplace compares. */
  predicate EqualsIgnoreCase(a: string, b: string) {
    ToLower(a) == ToLower(b)
  }

  /** A case-insensitive occurrence of `search` starts at position i of s. */
  predicate OccursAt(s: string, search: string, i: nat)
    requires i + |search| <= |s|
  {
    EqualsIgnoreCase(s[i..i + |search|], search)
  }

  /**
   * str_ireplace() for one search string: every case-insensitive occurrence
   * of `search`, found left to right without overlap, becomes `replacement`.
   * Text that a replacement puts in is not searched again.
   */
  function ReplaceIgnoreCase(s: string, search: string, replacement: string): (r: string)
    requires search != []
    ensures (forall i :: 0 <= i <= |s| - |search| ==> !OccursAt(s, search, i)) ==> r == s
    decreases |s|
  {
    if |s| < |search| then s
    else if OccursAt(s, search, 0) then replacement + ReplaceIgnoreCase(s[|search|..], search, replacement)
    else
      assert forall i :: 0 <= i <= |s| - 1 - |search| ==> (OccursAt(s[1..], search, i) <==> OccursAt(s, search, i + 1)) by {
        forall i | 0 <= i <= |s| - 1 - |search|
          ensures OccursAt(s[1..], search, i) <==> OccursAt(s, search, i + 1)
        {
          assert s[1..][i..i + |search|] == s[i + 1..i + 1 + |search|];
        }
      }
      [s[0]] + ReplaceIgnoreCase(s[1..], search, replacement)
  }

  /** An occurrence in s[1..] is one in s, one position further. */
  lemma OccursShifted(s: string, search: string, j: nat)
    requires |s| > 0 && j + |search| <= |s| - 1
    ensures OccursAt(s[1..], search, j) <==> OccursAt(s, search, j + 1)
  {
    assert s[1..][j..j + |search|] == s[j + 1..j + 1 + |search|];
  }

  /** A byte that starts no occurrence is copied, and the scan goes on after it. */
  lemma ReplaceMiss(s: string, search: string, replacement: string)
    requires search != [] && |s| >= |search| && !OccursAt(s, search, 0)
    ensures ReplaceIgnoreCase(s, search, replacement) == [s[0]] + ReplaceIgnoreCase(s[1..], search, replacement)
  {
  }

  /** An occurrence at the front is replaced, and the scan goes on after it. */
  lemma ReplaceHit(s: string, search: string, replacement: string)
    requires search != [] && |s| >= |search| && OccursAt(s, search, 0)
    ensures ReplaceIgnoreCase(s, search, replacement)
         == replacement + ReplaceIgnoreCase(s[|search|..], search, replacement)
  {
  }

  /** No case-insensitive occurrence of `search` starts before position i of s. */
  predicate NoneBefore(s: string, search: string, i: nat) {
    forall j :: 0 <= j < i && j + |search| <= |s| ==> !OccursAt(s, search, j)
  }

  lemma NoneBeforeShifted(s: string, search: string, i: nat)
    requires |s| > 0 && i > 0 && NoneBefore(s, search, i)
    ensures NoneBefore(s[1..], search, i - 1)
  {
    forall j | 0 <= j < i - 1 && j + |search| <= |s| - 1
      ensures !OccursAt(s[1..], search, j)
    {
      OccursShifted(s, search, j);
    }
  }

  /** A text shorter than the search: both sides are the text itself. */
  lemma SkipShort(s: string, search: string, replacement: string, i: nat)
    requires search != [] && i <= |s| < |search|
    ensures ReplaceIgnoreCase(s, search, replacement) == s[..i] + ReplaceIgnoreCase(s[i..], search, replacement)
  {
    assert |s[i..]| < |search|;
    assert s[..i] + s[i..] == s;
  }

  /** The inductive step: the first byte starts no occurrence and is copied. */
  lemma SkipStep(s: string, search: string, replacement: string, i: nat)
    requires search != [] && 0 < i <= |s| && |s| >= |search| && !OccursAt(s, search, 0)
    requires ReplaceIgnoreCase(s[1..], search, replacement)
          == s[1..][..i - 1] + ReplaceIgnoreCase(s[1..][i - 1..], search, replacement)
    ensures ReplaceIgnoreCase(s, search, replacement) == s[..i] + ReplaceIgnoreCase(s[i..], search, replacement)
  {
    ReplaceMiss(s, search, replacement);
    SplitAfterFirst(s, i, ReplaceIgnoreCase(s[i..], search, replacement));
  }

  /** s[..i] is s's first byte followed by the first i - 1 bytes of s[1..]. */
  lemma SplitAfterFirst(s: string, i: nat, rest: string)
    requires 0 < i <= |s|
    ensures s[1..][i - 1..] == s[i..] && [s[0]] + (s[1..][..i - 1] + rest) == s[..i] + rest
  {
    assert [s[0]] + s[1..][..i - 1] == s[..i];
  }

  /** The suffix of s from i, read at its front and after n bytes. */
  lemma SuffixParts(s: string, i: nat, n: nat)
    requires i + n <= |s|
    ensures s[i..][0..n] == s[i..i + n] && s[i..][n..] == s[i + n..]
  {
  }

  /**
   * When no occurrence starts before position i, the first i bytes are
   * copied as they are and the scan goes on from i.
   */
  lemma {:induction false} ReplaceSkipsPrefix(s: string, search: string, replacement: string, i: nat)
    requires search != [] && i <= |s| && NoneBefore(s, search, i)
    ensures ReplaceIgnoreCase(s, search, replacement) == s[..i] + ReplaceIgnoreCase(s[i..], search, replacement)
    decreases i
  {
    if i == 0 {
      assert s[..0] + s[0..] == s;
    } else if |s| < |search| {
      SkipShort(s, search, replacement, i);
    } else {
      assert !OccursAt(s, search, 0);
      NoneBeforeShifted(s, search, i);
      ReplaceSkipsPrefix(s[1..], search, replacement, i - 1);
      SkipStep(s, search, replacement, i);
    }
  }

  /**
   * The leftmost occurrence is replaced, and the scan resumes after it: an
   * occurrence overlapping it, or one inside the replacement, is never matched.
   */
  lemma ReplaceFirstOccurrence(s: string, search: string, replacement: string, i: nat)
    requires search != [] && i + |search| <= |s| && OccursAt(s, search, i)
    requires NoneBefore(s, search, i)
    ensures ReplaceIgnoreCase(s, search, replacement)
         == s[..i] + replacement + ReplaceIgnoreCase(s[i + |search|..], search, replacement)
  {
    ReplaceSkipsPrefix(s, search, replacement, i);
    ReplaceHitAt(s, search, replacement, i);
    Regroup(s[..i], replacement, ReplaceIgnoreCase(s[i + |search|..], search, replacement));
  }

  lemma Regroup(a: string, b: string, c: string)
    ensures a + (b + c) == a + b + c
  {
  }

  /** The scan that resumes at an occurrence replaces it first. */
  lemma ReplaceHitAt(s: string, search: string, replacement: string, i: nat)
    requires search != [] && i + |search| <= |s| && OccursAt(s, search, i)
    ensures ReplaceIgnoreCase(s[i..], search, replacement)
         == replacement + ReplaceIgnoreCase(s[i + |search|..], search, replacement)
  {
    SuffixParts(s, i, |search|);
    ReplaceHit(s[i..], search, replacement);
  }

  /** A (search, replacement) pair of str_ireplace's two lists. */
  datatype Rule = Rule(search: string, replacement: string)

  predicate NonEmptySearches(rules: seq<Rule>) {
    forall k :: 0 <= k < |rules| ==> rules[k].search != []
  }

  /** str_ireplace() with two lists: each pair applied in turn to the result of the previous ones. */
  function ReplaceAllIgnoreCase(s: string, rules: seq<Rule>): (r: string)
    requires NonEmptySearches(rules)
    ensures rules == [] ==> r == s
    ensures |rules| == 1 ==> r == ReplaceIgnoreCase(s, rules[0].search, rules[0].replacement)
    decreases |rules|
  {
    if rules == [] then s
    else ReplaceAllIgnoreCase(ReplaceIgnoreCase(s, rules[0].search, rules[0].replacement), rules[1..])
  }

  /** Replacing with the pairs of a and then those of b is replacing with a + b. */
  lemma {:induction false} ReplaceAllSequential(s: string, a: seq<Rule>, b: seq<Rule>)
    requires NonEmptySearches(a) && NonEmptySearches(b)
    ensures NonEmptySearches(a + b)
    ensures ReplaceAllIgnoreCase(s, a + b) == ReplaceAllIgnoreCase(ReplaceAllIgnoreCase(s, a), b)
    decreases |a|
  {
    if a == [] {
      assert a + b == b;
    } else {
      assert (a + b)[0] == a[0] && (a + b)[1..] == a[1..] + b;
      ReplaceAllSequential(ReplaceIgnoreCase(s, a[0].search, a[0].replacement), a[1..], b);
    }
  }

  /** Every search of the list starts with a space. */
  predicate SearchesStartWithSpace(rules: seq<Rule>) {
    forall k :: 0 <= k < |rules| ==> |rules[k].search| > 0 && rules[k].search[0] == ' '
  }

  /** A search that starts with a space occurs only where the text has a space. */
  lemma NoOccurrenceWithoutSpace(s: string, search: string)
    requires search != [] && search[0] == ' ' && ' ' !in s
    ensures forall i :: 0 <= i <= |s| - |search| ==> !OccursAt(s, search, i)
  {
    forall i | 0 <= i <= |s| - |search|
      ensures !OccursAt(s, search, i)
    {
      var w := s[i..i + |search|];
      assert w[0] == s[i] && s[i] != ' ';
      assert ToLower(w)[0] != ToLower(search)[0];
    }
  }

  /** Pairs whose searches start with a space leave a text without a space unchanged. */
  lemma {:induction false} ReplaceAllWithoutSpace(s: string, rules: seq<Rule>)
    requires NonEmptySearches(rules) && SearchesStartWithSpace(rules) && ' ' !in s
    ensures ReplaceAllIgnoreCase(s, rules) == s
    decreases |rules|
  {
    if rules != [] {
      NoOccurrenceWithoutSpace(s, rules[0].search);
      ReplaceAllWithoutSpace(s, rules[1..]);
    }
  }

  /** Replacements at least as long as their search never shorten the input. */
  lemma {:induction false} ReplaceNotShorter(s: string, search: string, replacement: string)
    requires search != [] && |replacement| >= |search|
    ensures |ReplaceIgnoreCase(s, search, replacement)| >= |s|
    decreases |s|
  {
    if |s| >= |search| {
      if OccursAt(s, search, 0) {
        ReplaceNotShorter(s[|search|..], search, replacement);
      } else {
        ReplaceNotShorter(s[1..], search, replacement);
      }
    }
  }

  /** Every replacement of the list is at least as long as its search. */
  predicate Lengthening(rules: seq<Rule>) {
    forall k :: 0 <= k < |rules| ==> |rules[k].replacement| >= |rules[k].search|
  }

  lemma {:induction false} ReplaceAllNotShorter(s: string, rules: seq<Rule>)
    requires NonEmptySearches(rules) && Lengthening(rules)
    ensures |ReplaceAllIgnoreCase(s, rules)| >= |s|
    decreases |rules|
  {
    if rules != [] {
      var once := ReplaceIgnoreCase(s, rules[0].search, rules[0].replacement);
      ReplaceNotShorter(s, rules[0].search, rules[0].replacement);
      ReplaceAllNotShorter(once, rules[1..]);
    }
  }

  /** An input shorter than every search is left as it is. */
  lemma {:induction false} ShortInputUnchanged(s: string, rules: seq<Rule>)
    requires NonEmptySearches(rules)
    ensures (forall k :: 0 <= k < |rules| ==> |rules[k].search| > |s|) ==> ReplaceAllIgnoreCase(s, rules) == s
    decreases |rules|
  {
    if rules != [] && forall k :: 0 <= k < |rules| ==> |rules[k].search| > |s| {
      assert ReplaceIgnoreCase(s, rules[0].search, rules[0].replacement) == s;
      ShortInputUnchanged(s, rules[1..]);
    }
  }

  /** Every search of the list is at least n bytes long. */
  predicate SearchesAtLeast(rules: seq<Rule>, n: nat) {
    forall k :: 0 <= k < |rules| ==> |rules[k].search| >= n
  }

  /**
   * With lengthening rules whose searches are at least n bytes long, the
   * result is never shorter than the input, and an input shorter than n
   * is returned as it is.
   */
  lemma ReplaceAllBounds(s: string, rules: seq<Rule>, n: nat)
    requires NonEmptySearches(rules) && Lengthening(rules) && SearchesAtLeast(rules, n)
    ensures |ReplaceAllIgnoreCase(s, rules)| >= |s|
    ensures |s| < n ==> ReplaceAllIgnoreCase(s, rules) == s
  {
    ReplaceAllNotShorter(s, rules);
    ShortInputUnchanged(s, rules);
  }

  function StripTrailingSlashes(s: string): (r: string)
    ensures |r| <= |s| && r == s[..|r|]
    ensures r == [] || r[|r| - 1] != '/'
    ensures forall i :: |r| <= i < |s| ==> s[i] == '/'
  {
    if s != [] && s[|s| - 1] == '/' then StripTrailingSlashes(s[..|s| - 1]) else s
  }

  /** What follows the last `sep` in s: all of s when there is none. */
  function AfterLast(s: string, sep: char): (r: string)
    ensures |r| <= |s| && r == s[|s| - |r|..]
    ensures sep !in r
  {
    if s == [] || s[|s| - 1] == sep then []
    else AfterLast(s[..|s| - 1], sep) + [s[|s| - 1]]
  }

  /** basename(): trailing slashes dropped, then what follows the last slash. */
  function Basename(path: string): (r: string)
    ensures '/' !in r
  {
    AfterLast(StripTrailingSlashes(path), '/')
  }

  /** The last component of a path is its basename. */
  lemma BasenameOfPath(prefix: string, id: string)
    requires id != [] && '/' !in id
    ensures Basename(prefix + "/" + id) == id
  {
    var path := prefix + "/" + id;
    assert StripTrailingSlashes(path) == path;
    AfterLastOf(prefix + "/", id, '/');
  }

  lemma {:induction false} AfterLastOf(head: string, tail: string, sep: char)
    requires head != [] && head[|head| - 1] == sep && sep !in tail
    ensures AfterLast(head + tail, sep) == tail
    decreases |tail|
  {
    if tail == [] {
      assert head + tail == head;
    } else {
      var init, last := tail[..|tail| - 1], tail[|tail| - 1];
      assert tail == init + [last];
      assert head + tail == (head + init) + [last];
      AfterLastOf(head, init, sep);
      AfterLastSnoc(head + init, last, sep);
    }
  }

  lemma AfterLastSnoc(s: string, c: char, sep: char)
    requires c != sep
    ensures AfterLast(s + [c], sep) == AfterLast(s, sep) + [c]
  {
    assert (s + [c])[..|s|] == s;
  }

  /** Whether a letter at position i starts a word: the byte before it is not a letter. */
  predicate WordStart(s: string, i: nat)
    requires i < |s|
  {
    i == 0 || !IsLetter(s[i - 1])
  }

  /**
   * Title case: a letter that starts a word is upper case, every other
   * letter lower case, every other byte unchanged.
   */
  function TitleCase(s: string): (r: string)
    ensures |r| == |s|
    // the same bytes but for the case of letters ...
    ensures ToLower(r) == ToLower(s)
    // ... and a letter is upper case exactly when it starts a word
    ensures forall i :: 0 <= i < |r| && IsLetter(r[i]) ==> (IsUpper(r[i]) <==> WordStart(r, i))
  {
    var r := seq(|s|, i requires 0 <= i < |s| => TitleCaseAt(s, i));
    SameUpToCase(r, s);
    r
  }

  /** The byte at position i of the title-cased string. */
  function TitleCaseAt(s: string, i: nat): (c: char)
    requires i < |s|
    ensures Lower(c) == Lower(s[i]) && (IsLetter(c) <==> IsLetter(s[i]))
    ensures IsLetter(c) ==> (IsUpper(c) <==> WordStart(s, i))
  {
    if WordStart(s, i) then Upper(s[i]) else Lower(s[i])
  }

  /** Strings that agree position by position up to case are equal up to case. */
  lemma SameUpToCase(a: string, b: string)
    requires |a| == |b| && forall i :: 0 <= i < |a| ==> Lower(a[i]) == Lower(b[i])
    ensures ToLower(a) == ToLower(b)
  {
    assert forall i :: 0 <= i < |a| ==> ToLower(a)[i] == ToLower(b)[i];
  }

  /** The two properties of TitleCase's contract leave no other result. */
  lemma TitleCaseUnique(s: string, t: string)
    requires ToLower(t) == ToLower(s)
    requires forall i :: 0 <= i < |t| && IsLetter(t[i]) ==> (IsUpper(t[i]) <==> WordStart(t, i))
    ensures t == TitleCase(s)
  {
    var r := TitleCase(s);
    assert |t| == |ToLower(t)| == |ToLower(s)| == |r|;
    forall i | 0 <= i < |t|
      ensures t[i] == r[i]
    {
      SameByteAt(t, r, i);
    }
  }

  /**
   * Two strings equal up to case, each with exactly its word-starting
   * letters in upper case, agree at every position.
   */
  lemma SameByteAt(t: string, r: string, i: nat)
    requires ToLower(t) == ToLower(r) && i < |t|
    requires IsLetter(t[i]) ==> (IsUpper(t[i]) <==> WordStart(t, i))
    requires IsLetter(r[i]) ==> (IsUpper(r[i]) <==> WordStart(r, i))
    ensures t[i] == r[i]
  {
    assert Lower(t[i]) == ToLower(t)[i] == ToLower(r)[i] == Lower(r[i]);
    if i > 0 {
      assert Lower(t[i - 1]) == ToLower(t)[i - 1] == ToLower(r)[i - 1] == Lower(r[i - 1]);
    }
  }

  lemma ToLowerIdempotent(s: string)
    ensures ToLower(ToLower(s)) == ToLower(s)
  {
    assert forall i :: 0 <= i < |s| ==> ToLower(ToLower(s))[i] == ToLower(s)[i];
  }

  /** Lowering and title-casing a single byte other than "0" does not give "0". */
  lemma OneByteCaseNotZero(s: string)
    requires |s| == 1 && s != "0"
    ensures TitleCase(ToLower(s)) != "0"
  {
    assert s == [s[0]];
  }

  /** Letters stay letters, so the word starts of a title-cased string are those of its input. */
  lemma TitleCaseIdempotent(s: string)
    ensures TitleCase(TitleCase(s)) == TitleCase(s)
  {
    var t := TitleCase(s);
    assert forall i :: 0 <= i < |s| ==> (IsLetter(t[i]) <==> IsLetter(s[i]));
    assert forall i :: 0 <= i < |s| ==> (WordStart(t, i) <==> WordStart(s, i));
  }

  /** No occurrence, no change; and a match of the whole input is replaced whatever its case. */
  lemma ReplaceExamples()
    ensures ReplaceIgnoreCase("ab", " x", " y") == "ab"
    ensures ReplaceIgnoreCase(" Hwy", " HWY", " Highway") == " Highway"
  {
    assert ToLower(" Hwy") == " hwy";
    assert ToLower(" HWY") == " hwy";
    assert " Hwy"[..4] == " Hwy";
    assert " Hwy"[4..] == [];
    assert " Highway" + [] == " Highway";
  }
}
