/** Skill ids and the path components made from them. */
module SkillIds {

  /** The characters that trimming removes around an id given by hand. */
  predicate IsBlank(c: char) {
    || '\t' <= c <= '\r' || '\U{1C}' <= c <= ' ' || c == '\U{85}' || c == '\U{A0}' || c == '\U{1680}'
    || '\U{2000}' <= c <= '\U{200A}' || c == '\U{2028}' || c == '\U{2029}' || c == '\U{202F}' || c == '\U{205F}'
    || c == '\U{3000}'
  }

  function StripBlanks(s: string): string
    decreases |s|
  {
    if s != "" && IsBlank(s[0]) then StripBlanks(s[1..])
    else if s != "" && IsBlank(s[|s| - 1]) then StripBlanks(s[..|s| - 1])
    else s
  }

  /** The ids given by hand, without the blanks around them and without empty ones. */
  function GivenIds(raw: seq<string>): seq<string> {
    if raw == [] then []
    else
      var earlier, last := GivenIds(raw[..|raw| - 1]), StripBlanks(raw[|raw| - 1]);
      if last == "" then earlier else earlier + [last]
  }

  predicate IsTrimmed(c: char) { c == '-' || c == '.' || c == '_' }

  predicate IsSafe(c: char) { 'a' <= c <= 'z' || '0' <= c <= '9' || IsTrimmed(c) }

  /** Which characters count as letters or digits, in any script. */
  type Alphabet = char -> bool

  ghost predicate CoversAscii(alnum: Alphabet) {
    forall c :: 'a' <= c <= 'z' || 'A' <= c <= 'Z' || '0' <= c <= '9' ==> alnum(c)
  }

  /** Removes dashes, dots and underscores from both ends. */
  function Trim(s: string): string
    decreases |s|
  {
    if s != "" && IsTrimmed(s[0]) then Trim(s[1..])
    else if s != "" && IsTrimmed(s[|s| - 1]) then Trim(s[..|s| - 1])
    else s
  }

  /** Replaces every run of unsafe characters by one dash; `open` says that the dash of the current run is written. */
  function Collapse(s: string, open: bool): string {
    if s == "" then ""
    else if IsSafe(s[0]) then [s[0]] + Collapse(s[1..], false)
    else (if open then "" else "-") + Collapse(s[1..], true)
  }

  /** The id of a skill, from its name in lower case. */
  function NormalizeSkillId(lowered: string): string {
    var normalized := Trim(Collapse(lowered, false));
    if normalized == "" then "unnamed-skill" else normalized
  }

  function KeepOrDash(c: char, alnum: Alphabet): char {
    if alnum(c) || IsTrimmed(c) then c else '-'
  }

  function Dashed(s: string, alnum: Alphabet): (r: string)
    ensures |r| == |s| && forall i :: 0 <= i < |s| ==> r[i] == KeepOrDash(s[i], alnum)
  {
    if s == "" then "" else [KeepOrDash(s[0], alnum)] + Dashed(s[1..], alnum)
  }

  function Sanitized(value: string, alnum: Alphabet): string {
    var cleaned := Trim(Dashed(value, alnum));
    if cleaned == "" then "unnamed" else cleaned
  }

  /** Makes a path component, one character at a time. */
  method SanitizeComponent(value: string, alnum: Alphabet) returns (component: string)
    ensures component == Sanitized(value, alnum)
  {
    var keep := "";
    for i := 0 to |value|
      invariant |keep| == i && forall j :: 0 <= j < i ==> keep[j] == KeepOrDash(value[j], alnum)
    {
      keep := keep + [if alnum(value[i]) || IsTrimmed(value[i]) then value[i] else '-'];
    }
    assert keep == Dashed(value, alnum);
    var cleaned := Trim(keep);
    return if cleaned == "" then "unnamed" else cleaned;
  }

  // ----- normalized ids are fixed points ----------------------------------------------------------------

  /** Non-empty, safe characters only, and nothing to trim at either end. */
  predicate IsNormalized(id: string) {
    id != "" && (forall i :: 0 <= i < |id| ==> IsSafe(id[i])) && !IsTrimmed(id[0]) && !IsTrimmed(id[|id| - 1])
  }

  lemma {:induction false} TrimmedEnds(s: string)
    ensures Trim(s) == "" || (!IsTrimmed(Trim(s)[0]) && !IsTrimmed(Trim(s)[|Trim(s)| - 1]))
    ensures (forall i :: 0 <= i < |s| ==> IsSafe(s[i])) ==> forall i :: 0 <= i < |Trim(s)| ==> IsSafe(Trim(s)[i])
    decreases |s|
  {
    if s != "" && IsTrimmed(s[0]) {
      TrimmedEnds(s[1..]);
    } else if s != "" && IsTrimmed(s[|s| - 1]) {
      TrimmedEnds(s[..|s| - 1]);
    }
  }

  lemma {:induction false} CollapsedIsSafe(s: string, open: bool)
    ensures forall i :: 0 <= i < |Collapse(s, open)| ==> IsSafe(Collapse(s, open)[i])
    ensures (forall i :: 0 <= i < |s| ==> IsSafe(s[i])) ==> Collapse(s, open) == s
    decreases |s|
  {
    if s != "" {
      CollapsedIsSafe(s[1..], false);
      CollapsedIsSafe(s[1..], true);
      assert s == [s[0]] + s[1..];
    }
  }

  lemma NormalizeIsNormalized(lowered: string)
    ensures IsNormalized(NormalizeSkillId(lowered))
  {
    CollapsedIsSafe(lowered, false);
    TrimmedEnds(Collapse(lowered, false));
  }

  /**
   Normalized ids are exactly the fixed points of normalizing, and sanitizing keeps each of them. So skills with
   different ids get different directories when they are staged.
   */
  lemma NormalizedIdsAreFixed(id: string, alnum: Alphabet)
    requires CoversAscii(alnum)
    ensures IsNormalized(id) <==> NormalizeSkillId(id) == id
    ensures IsNormalized(id) ==> Sanitized(id, alnum) == id
  {
    NormalizeIsNormalized(id);
    CollapsedIsSafe(id, false);
    if IsNormalized(id) {
      assert Dashed(id, alnum) == id;
    }
  }

  // ----- what the parts of a name become ----------------------------------------------------------------

  ghost predicate AllSafe(s: string) {
    forall i :: 0 <= i < |s| ==> IsSafe(s[i])
  }

  ghost predicate NoneSafe(s: string) {
    forall i :: 0 <= i < |s| ==> !IsSafe(s[i])
  }

  lemma {:induction false} CollapseGap(gap: string, s: string)
    requires NoneSafe(gap) && (s == "" || IsSafe(s[0]))
    ensures Collapse(gap + s, true) == Collapse(s, false)
    ensures gap != "" ==> Collapse(gap + s, false) == "-" + Collapse(s, false)
    decreases |gap|
  {
    if gap == "" {
      assert gap + s == s;
    } else {
      assert (gap + s)[1..] == gap[1..] + s;
      CollapseGap(gap[1..], s);
    }
  }

  /** A run of unsafe characters becomes one dash, and safe ones stay; from left to right this fixes every name. */
  lemma {:induction false} UnsafeRunBecomesDash(a: string, gap: string, s: string)
    requires AllSafe(a) && gap != "" && NoneSafe(gap) && (s == "" || IsSafe(s[0]))
    ensures Collapse(a + gap + s, false) == a + "-" + Collapse(s, false)
    decreases |a|
  {
    if a == "" {
      assert a + gap + s == gap + s;
      CollapseGap(gap, s);
    } else {
      assert (a + gap + s)[1..] == a[1..] + gap + s && (a + gap + s)[0] == a[0];
      UnsafeRunBecomesDash(a[1..], gap, s);
      assert a == [a[0]] + a[1..];
    }
  }

  /** Two normalized words with anything unsafe between them become one id, joined by a single dash. */
  lemma WordsAreJoinedByDash(a: string, gap: string, b: string)
    requires IsNormalized(a) && IsNormalized(b) && gap != "" && NoneSafe(gap)
    ensures NormalizeSkillId(a + gap + b) == a + "-" + b
  {
    UnsafeRunBecomesDash(a, gap, b);
    CollapsedIsSafe(b, false);
    assert Collapse(a + gap + b, false) == a + "-" + b;
    assert (a + "-" + b)[0] == a[0] && (a + "-" + b)[|a| + |b|] == b[|b| - 1];
  }

  predicate IsLetterOrDigit(c: char) { 'a' <= c <= 'z' || '0' <= c <= '9' }

  /** Only a name without any ASCII letter or digit gets the default id. */
  lemma NamelessGetsDefault(lowered: string)
    requires forall i :: 0 <= i < |lowered| ==> !IsLetterOrDigit(lowered[i])
    ensures NormalizeSkillId(lowered) == "unnamed-skill"
  {
    CollapsedKeepsOut(lowered, false);
    NothingLeft(Collapse(lowered, false));
  }

  lemma {:induction false} CollapsedKeepsOut(s: string, open: bool)
    requires forall i :: 0 <= i < |s| ==> !IsLetterOrDigit(s[i])
    ensures forall i :: 0 <= i < |Collapse(s, open)| ==> IsTrimmed(Collapse(s, open)[i])
    decreases |s|
  {
    if s != "" {
      CollapsedKeepsOut(s[1..], false);
      CollapsedKeepsOut(s[1..], true);
    }
  }

  lemma {:induction false} NothingLeft(s: string)
    requires forall i :: 0 <= i < |s| ==> IsTrimmed(s[i])
    ensures Trim(s) == ""
    decreases |s|
  {
    if s != "" {
      NothingLeft(s[1..]);
    }
  }

  /** The same for path components, over any alphabet. */
  lemma NamelessComponent(value: string, alnum: Alphabet)
    requires forall i :: 0 <= i < |value| ==> !alnum(value[i])
    ensures Sanitized(value, alnum) == "unnamed"
  {
    NothingLeft(Dashed(value, alnum));
  }

  /** Trimming removes nothing but dashes, dots and underscores, and only from the two ends. */
  lemma {:induction false} TrimCutsEnds(s: string) returns (front: string, back: string)
    ensures s == front + Trim(s) + back
    ensures forall c :: c in front || c in back ==> c == '-' || c == '.' || c == '_'
    decreases |s|
  {
    front, back := "", "";
    if s != "" && IsTrimmed(s[0]) {
      front, back := TrimCutsEnds(s[1..]);
      front := [s[0]] + front;
    } else if s != "" && IsTrimmed(s[|s| - 1]) {
      front, back := TrimCutsEnds(s[..|s| - 1]);
      back := back + [s[|s| - 1]];
    }
  }

  /** Stripping removes the blanks around a text and nothing else. */
  lemma {:induction false} StripCutsBlanks(s: string) returns (front: string, back: string)
    ensures s == front + StripBlanks(s) + back
    ensures forall c :: c in front || c in back ==> IsBlank(c)
    ensures StripBlanks(s) != "" ==>
              !IsBlank(StripBlanks(s)[0]) && !IsBlank(StripBlanks(s)[|StripBlanks(s)| - 1])
    decreases |s|
  {
    hide IsBlank;
    front, back := "", "";
    if s != "" && IsBlank(s[0]) {
      front, back := StripCutsBlanks(s[1..]);
      front := [s[0]] + front;
    } else if s != "" && IsBlank(s[|s| - 1]) {
      front, back := StripCutsBlanks(s[..|s| - 1]);
      back := back + [s[|s| - 1]];
    }
  }

  /** The given ids are the stripped texts that are not empty. */
  lemma {:induction false} GivenIdsAreStripped(raw: seq<string>, id: string)
    ensures id in GivenIds(raw) <==> id != "" && exists i :: 0 <= i < |raw| && StripBlanks(raw[i]) == id
    decreases |raw|
  {
    hide StripBlanks;
    if raw != [] {
      var n := |raw| - 1;
      GivenIdsAreStripped(raw[..n], id);
      assert forall i :: 0 <= i < n ==> raw[..n][i] == raw[i];
    }
  }
}
