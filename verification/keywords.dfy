/**
 * The escalation pattern `installRegex`: a case-insensitive search for any of
 * a fixed set of installation and sizing terms, written as explicit substring
 * matching instead of a regular expression engine.
 */
module Keywords {
  import opened Wrappers
  import opened JsText

  /** The alternatives of the pattern that are plain words, in lower case. */
  const Terms: seq<string> :=
    ["install", "ติดตั้ง", "hatch", "gate", "mezzanine", "void", "size", "opening"]

  /**
   * Term `t` (lower case) occurs in `s` at position `i`, ignoring ASCII case.
   * Under the `i` flag without `u`, a pattern letter matches exactly its
   * ASCII upper and lower case forms; Thai letters have no case.
   */
  predicate TermAt(s: string, i: nat, t: string) {
    i + |t| <= |s| && forall k :: 0 <= k < |t| ==> LowerAscii(s[i + k]) == t[k]
  }

  /** The character class `[-\s]`. */
  predicate IsCutOutSeparator(c: char) {
    c == '-' || IsSpace(c)
  }

  /** The alternative `cut[-\s]?out` matches at `i`. */
  predicate CutOutAt(s: string, i: nat) {
    && TermAt(s, i, "cut")
    && (|| TermAt(s, i + 3, "out")
        || (i + 3 < |s| && IsCutOutSeparator(s[i + 3]) && TermAt(s, i + 4, "out")))
  }

  /** Some alternative of the pattern matches at `i`. */
  predicate TriggerAt(s: string, i: nat) {
    (exists j :: 0 <= j < |Terms| && TermAt(s, i, Terms[j])) || CutOutAt(s, i)
  }

  /** What `installRegex.test(s)` answers: a match starts somewhere in `s`. */
  ghost predicate ContainsTrigger(s: string) {
    exists i: nat :: i <= |s| && TriggerAt(s, i)
  }

  /**
   * The first position at or after `from` where the pattern matches, trying
   * positions left to right as a backtracking matcher does.
   */
  function FirstMatch(s: string, from: nat): (r: Option<nat>)
    requires from <= |s|
    ensures r.Some? ==> from <= r.value <= |s| && TriggerAt(s, r.value)
    ensures r.Some? ==> forall i: nat :: from <= i < r.value ==> !TriggerAt(s, i)
    ensures r.None? ==> forall i: nat :: from <= i <= |s| ==> !TriggerAt(s, i)
    decreases |s| - from
  {
    if TriggerAt(s, from) then Some(from)
    else if from == |s| then None
    else FirstMatch(s, from + 1)
  }

  /** `installRegex.test(s)`. */
  function Matches(s: string): (r: bool)
    ensures r <==> ContainsTrigger(s)
  {
    FirstMatch(s, 0).Some?
  }

  // ---------------------------------------------------------------------
  // Properties of the pattern

  /** Every plain term, alone, triggers escalation. */
  lemma EveryTermTriggers(j: nat)
    requires j < |Terms|
    ensures ContainsTrigger(Terms[j])
  {
    assert TriggerAt(Terms[j], 0) by {
      assert TermAt(Terms[j], 0, Terms[j]);
    }
  }

  /** `cutout`, and `cut` + one '-' or white-space character + `out`, trigger escalation. */
  lemma CutOutVariantsTrigger(c: char)
    requires IsCutOutSeparator(c)
    ensures ContainsTrigger("cutout")
    ensures ContainsTrigger("cut" + [c] + "out")
  {
    assert TriggerAt("cutout", 0) by {
      assert CutOutAt("cutout", 0);
    }
    var s := "cut" + [c] + "out";
    assert TriggerAt(s, 0) by {
      assert TermAt(s, 0, "cut") && TermAt(s, 4, "out");
    }
  }

  /** Two or more separator characters between `cut` and `out` defeat that alternative. */
  lemma LongSeparatorDoesNotMatch(s: string, i: nat)
    requires i + 5 <= |s|
    requires IsCutOutSeparator(s[i + 3]) && IsCutOutSeparator(s[i + 4])
    ensures !CutOutAt(s, i)
  {
    assert LowerAscii(s[i + 3]) != "out"[0] && LowerAscii(s[i + 4]) != "out"[0];
  }

  /** Matching shifts with the text around it. */
  lemma TriggerAtShift(p: string, s: string, q: string, i: nat)
    requires TriggerAt(s, i)
    ensures TriggerAt(p + s + q, |p| + i)
  {
    var u := p + s + q;
    assert forall k :: 0 <= k < |s| ==> u[|p| + k] == s[k];
  }

  /** A text that contains a trigger still does after anything is put around it. */
  lemma {:induction false} TriggerInContext(p: string, s: string, q: string)
    requires ContainsTrigger(s)
    ensures ContainsTrigger(p + s + q)
  {
    var i: nat :| i <= |s| && TriggerAt(s, i);
    TriggerAtShift(p, s, q, i);
  }

  /** Matching at a position only looks at ASCII case through `LowerAscii`. */
  lemma TriggerAtIgnoresCase(s: string, u: string, i: nat)
    requires |s| == |u|
    requires forall k :: 0 <= k < |s| ==> SameUpToCase(s[k], u[k])
    ensures TriggerAt(s, i) <==> TriggerAt(u, i)
  {
    if i + 3 < |s| {
      SameUpToCaseKeepsClass(s[i + 3], u[i + 3]);
    }
  }

  /** The pattern has no word boundaries: a term inside a longer word escalates too. */
  lemma InsideWordExamples()
    ensures ContainsTrigger("navigate") && ContainsTrigger("avoid") && ContainsTrigger("installment")
  {
    EveryTermTriggers(3);
    TriggerInContext("navi", "gate", "");
    assert "navi" + "gate" + "" == "navigate";
    EveryTermTriggers(5);
    TriggerInContext("a", "void", "");
    assert "a" + "void" + "" == "avoid";
    EveryTermTriggers(0);
    TriggerInContext("", "install", "ment");
    assert "" + "install" + "ment" == "installment";
  }

  /** The pattern ignores ASCII letter case: texts equal up to case trigger alike. */
  lemma {:induction false} TriggerIgnoresCase(s: string, u: string)
    requires |s| == |u|
    requires forall k :: 0 <= k < |s| ==> SameUpToCase(s[k], u[k])
    ensures ContainsTrigger(s) <==> ContainsTrigger(u)
  {
    if ContainsTrigger(s) {
      var i: nat :| i <= |s| && TriggerAt(s, i);
      TriggerAtIgnoresCase(s, u, i);
    }
    if ContainsTrigger(u) {
      var i: nat :| i <= |u| && TriggerAt(u, i);
      TriggerAtIgnoresCase(s, u, i);
    }
  }

  /** Upper-, mixed- and lower-case spellings escalate alike. */
  lemma MixedCaseExamples()
    ensures ContainsTrigger("INSTALL") && ContainsTrigger("Hatch") && ContainsTrigger("GaTe")
  {
    EveryTermTriggers(0);
    EveryTermTriggers(2);
    EveryTermTriggers(3);
    TriggerIgnoresCase("install", "INSTALL");
    TriggerIgnoresCase("hatch", "Hatch");
    TriggerIgnoresCase("gate", "GaTe");
  }

  /** A match at `i` spans `len` characters and begins and ends with characters that are not white space. */
  lemma TriggerAtSpan(s: string, i: nat) returns (len: nat)
    requires TriggerAt(s, i)
    ensures 0 < len && i + len <= |s|
    ensures !IsSpace(s[i]) && !IsSpace(s[i + len - 1])
    ensures TriggerAt(s[i..i + len], 0)
  {
    if j :| 0 <= j < |Terms| && TermAt(s, i, Terms[j]) {
      len := |Terms[j]|;
      assert LowerAscii(s[i + 0]) == Terms[j][0];
      assert LowerAscii(s[i + (len - 1)]) == Terms[j][len - 1];
      assert TermAt(s[i..i + len], 0, Terms[j]);
    } else if TermAt(s, i + 3, "out") {
      len := 6;
      assert LowerAscii(s[i + 0]) == "cut"[0] && LowerAscii(s[i + 3 + 2]) == "out"[2];
      assert TermAt(s[i..i + len], 0, "cut") && TermAt(s[i..i + len], 3, "out");
    } else {
      len := 7;
      assert LowerAscii(s[i + 0]) == "cut"[0] && LowerAscii(s[i + 4 + 2]) == "out"[2];
      assert TermAt(s[i..i + len], 0, "cut") && TermAt(s[i..i + len], 4, "out");
    }
  }

  /** A match in the trimmed text is a match in the raw text. */
  lemma {:induction false} TrimmedTriggerInRaw(s: string, lo: nat, hi: nat)
    requires lo <= hi <= |s| && ContainsTrigger(s[lo..hi])
    ensures ContainsTrigger(s)
  {
    assert s == s[..lo] + s[lo..hi] + s[hi..];
    TriggerInContext(s[..lo], s[lo..hi], s[hi..]);
  }

  /** A match in the raw text lies inside the part that trimming keeps. */
  lemma {:induction false} RawTriggerSurvivesTrim(s: string, lo: nat, hi: nat, i: nat)
    requires TrimmedAt(s, lo, hi) && i <= |s| && TriggerAt(s, i)
    ensures ContainsTrigger(s[lo..hi])
  {
    var len := TriggerAtSpan(s, i);
    assert lo <= i && i + len <= hi;
    var w := s[i..i + len];
    assert s[lo..hi] == s[lo..i] + w + s[i + len..hi];
    TriggerAtShift(s[lo..i], w, s[i + len..hi], 0);
  }

  /**
   * Trimming the text first does not change the escalation decision: every
   * alternative begins and ends with a character that is not white space.
   */
  lemma {:induction false} TrimKeepsTrigger(s: string)
    ensures ContainsTrigger(Trim(s)) <==> ContainsTrigger(s)
  {
    var b := TrimBounds(s);
    var lo, hi := b.0, b.1;
    assert Trim(s) == s[lo..hi];
    if ContainsTrigger(s[lo..hi]) {
      TrimmedTriggerInRaw(s, lo, hi);
    }
    if ContainsTrigger(s) {
      var i: nat :| i <= |s| && TriggerAt(s, i);
      RawTriggerSurvivesTrim(s, lo, hi, i);
    }
  }

  /** The first character of every alternative, folded to lower case. */
  const Initials: string := "iตhgmvsoc"

  /**
   * A match can only start at a character that folds to one of `Initials`;
   * the only alternative starting with 'c' is `cut[-\s]?out`, and the only
   * one starting with 'o' is `opening`, seven characters long. The last two
   * clauses are proof aids for refuting concrete texts such as `cut--out`.
   */
  lemma TriggerAtInitial(s: string, i: nat)
    requires TriggerAt(s, i)
    ensures i < |s| && LowerAscii(s[i]) in Initials
    ensures LowerAscii(s[i]) == 'c' ==> CutOutAt(s, i)
    ensures LowerAscii(s[i]) == 'o' ==> i + 7 <= |s|
  {
    if j :| 0 <= j < |Terms| && TermAt(s, i, Terms[j]) {
      assert LowerAscii(s[i + 0]) == Terms[j][0];
      assert Terms[j][0] != 'c';
      assert Terms[j][0] == 'o' ==> |Terms[j]| == 7;
    } else {
      assert LowerAscii(s[i + 0]) == "cut"[0];
    }
  }

  /** A text in which no character folds to one of `Initials` never escalates. */
  lemma NoInitialNoTrigger(s: string)
    requires forall k :: 0 <= k < |s| ==> LowerAscii(s[k]) !in Initials
    ensures !ContainsTrigger(s)
  {
    forall i: nat | i <= |s| && TriggerAt(s, i) ensures false {
      TriggerAtInitial(s, i);
    }
  }

  /** Examples: two separators between `cut` and `out`, and the Thai greeting, do not escalate. */
  lemma NonTriggerExamples()
    ensures !ContainsTrigger("cut--out")
    ensures !ContainsTrigger("สวัสดี")
  {
    NoInitialNoTrigger("สวัสดี");
    var s := "cut--out";
    forall i: nat | i <= |s| && TriggerAt(s, i) ensures false {
      TriggerAtInitial(s, i);
      if i == 0 {
        LongSeparatorDoesNotMatch(s, 0);
      }
    }
  }
}
