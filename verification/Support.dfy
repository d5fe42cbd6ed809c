/** Shared value types and the JavaScript string operations the core relies on. */
module Support {

  datatype Option<+T> = None | Some(value: T)

  datatype Result<+T, +E> = Success(value: T) | Failure(error: E)

  /** A JavaScript property that can be absent (undefined), explicitly null, or set. */
  datatype Setting<+T> = Unset | Null | Set(value: T) {
    /** `x == null` in JavaScript: true for both undefined and null. */
    predicate IsNullish() { !Set? }
  }

  /** An error made by builder-util-runtime's newError: a message and a stable machine-readable code. */
  datatype CodedError = CodedError(message: string, code: string)

  predicate NoChar(s: string, c: char) {
    forall i :: 0 <= i < |s| ==> s[i] != c
  }

  lemma NoCharAppend(a: string, b: string, c: char)
    ensures NoChar(a + b, c) <==> NoChar(a, c) && NoChar(b, c)
  {
    if NoChar(a + b, c) {
      forall i | 0 <= i < |a| ensures a[i] != c { assert a[i] == (a + b)[i]; }
      forall i | 0 <= i < |b| ensures b[i] != c { assert b[i] == (a + b)[|a| + i]; }
    }
    if NoChar(a, c) && NoChar(b, c) {
      forall i | 0 <= i < |a + b| ensures (a + b)[i] != c {
        if i >= |a| { assert (a + b)[i] == b[i - |a|]; }
      }
    }
  }

  /** Index of the last occurrence of `c` in `s`, if there is one. */
  function LastIndexOf(s: string, c: char): (r: Option<nat>)
    ensures r.Some? ==> r.value < |s| && s[r.value] == c && NoChar(s[r.value + 1..], c)
    ensures r.None? ==> NoChar(s, c)
  {
    if s == [] then None
    else if s[|s| - 1] == c then Some(|s| - 1)
    else
      var r := LastIndexOf(s[..|s| - 1], c);
      assert r.Some? ==> s[r.value + 1..] == s[..|s| - 1][r.value + 1..] + [s[|s| - 1]];
      r
  }

  /** `a || b` where `a` is an optional string: null, undefined and "" all fall through to `b`. */
  function OrElse(a: Option<string>, b: string): string {
    if a.Some? && a.value != "" then a.value else b
  }

  predicate StartsWith(s: string, prefix: string) {
    |prefix| <= |s| && s[..|prefix|] == prefix
  }

  predicate EndsWith(s: string, suffix: string) {
    |suffix| <= |s| && s[|s| - |suffix|..] == suffix
  }

  /** The characters String.prototype.trim removes: ECMAScript WhiteSpace and LineTerminator. */
  predicate IsSpace(c: char) {
    c == '\t' || c == '\n' || c == '\U{B}' || c == '\U{C}' || c == '\r' || c == ' ' ||
    c == '\U{A0}' || c == '\U{1680}' || ('\U{2000}' <= c <= '\U{200A}') || c == '\U{2028}' ||
    c == '\U{2029}' || c == '\U{202F}' || c == '\U{205F}' || c == '\U{3000}' || c == '\U{FEFF}'
  }

  /** builder-util's isEmptyOrSpaces on a non-null string: `s.trim().length === 0`. */
  predicate IsEmptyOrSpaces(s: string) {
    forall i :: 0 <= i < |s| ==> IsSpace(s[i])
  }

  function LowerChar(c: char): char {
    if 'A' <= c <= 'Z' then (c as int + 32) as char else c
  }

  /** String.prototype.toLowerCase, restricted to the ASCII letters. */
  function ToLower(s: string): (r: string)
    ensures |r| == |s|
    ensures forall i :: 0 <= i < |s| ==> r[i] == LowerChar(s[i])
  {
    seq(|s|, i requires 0 <= i < |s| => LowerChar(s[i]))
  }

  /**
   * Replacing every occurrence of `pat` by the literal text `rep`: the leftmost occurrence
   * is replaced, and the scan resumes after it, so matches never overlap. This is
   * `s.replace(/pat/g, rep)` when `rep` holds no replacement pattern (ReplaceAllPatternPlain).
   */
  function ReplaceAll(s: string, pat: string, rep: string): string
    requires pat != []
    decreases |s|
  {
    if s == [] then []
    else if StartsWith(s, pat) then rep + ReplaceAll(s[|pat|..], pat, rep)
    else [s[0]] + ReplaceAll(s[1..], pat, rep)
  }

  /**
   * A prefix `a` that lacks the pattern's j-th character, followed by a `b` whose first j
   * characters lack it too, cannot hold the start of a match: it is copied unchanged.
   */
  lemma {:induction false} ReplaceAllKeepsPrefix(a: string, b: string, pat: string, rep: string, j: nat)
    requires pat != [] && j < |pat|
    requires NoChar(a, pat[j])
    requires forall t :: 0 <= t < j && t < |b| ==> b[t] != pat[j]
    ensures ReplaceAll(a + b, pat, rep) == a + ReplaceAll(b, pat, rep)
    decreases |a|
  {
    if a == [] {
      assert a + b == b;
    } else {
      var s := a + b;
      assert !StartsWith(s, pat) by {
        if StartsWith(s, pat) {
          assert false;
        }
      }
      assert s[1..] == a[1..] + b;
      ReplaceAllKeepsPrefix(a[1..], b, pat, rep, j);
    }
  }

  /** A string lacking any one character of the pattern is returned unchanged. */
  lemma ReplaceAllNoMatch(s: string, pat: string, rep: string, j: nat)
    requires pat != [] && j < |pat|
    requires NoChar(s, pat[j])
    ensures ReplaceAll(s, pat, rep) == s
  {
    ReplaceAllKeepsPrefix(s, [], pat, rep, j);
    assert s + [] == s;
  }

  /** A string that starts with the pattern has that occurrence replaced. */
  lemma ReplaceAllAtStart(pat: string, rest: string, rep: string)
    requires pat != []
    ensures ReplaceAll(pat + rest, pat, rep) == rep + ReplaceAll(rest, pat, rep)
  {
    var s := pat + rest;
    assert s[..|pat|] == pat;
    assert s[|pat|..] == rest;
  }

  /** `s.includes(pat)`. */
  ghost predicate Contains(s: string, pat: string) {
    exists i: nat :: OccursAt(s, pat, i)
  }

  predicate OccursAt(s: string, pat: string, i: nat) {
    i + |pat| <= |s| && s[i..i + |pat|] == pat
  }

  /** A string in which the pattern does not occur is returned unchanged. */
  lemma {:induction false} ReplaceAllAbsent(s: string, pat: string, rep: string)
    requires pat != [] && !Contains(s, pat)
    ensures ReplaceAll(s, pat, rep) == s
    decreases |s|
  {
    if s != [] {
      assert !StartsWith(s, pat) by {
        if StartsWith(s, pat) {
          assert OccursAt(s, pat, 0);
        }
      }
      assert !Contains(s[1..], pat) by {
        forall i: nat | OccursAt(s[1..], pat, i) ensures OccursAt(s, pat, i + 1) {
          assert s[1..][i..i + |pat|] == s[i + 1..i + 1 + |pat|];
        }
      }
      ReplaceAllAbsent(s[1..], pat, rep);
    }
  }

  /**
   * The replacement text of one match in `String.prototype.replace` with a string
   * replacement and a regular expression without capture groups: "$$" is a dollar sign,
   * "$&" the match, "$`" the text before the match, "$'" the text after it; any other
   * dollar sign is copied.
   */
  function ExpandReplacement(rep: string, matched: string, before: string, after: string): string
    decreases |rep|
  {
    if rep == [] then []
    else if rep[0] == '$' && |rep| >= 2 && rep[1] == '$' then "$" + ExpandReplacement(rep[2..], matched, before, after)
    else if rep[0] == '$' && |rep| >= 2 && rep[1] == '&' then matched + ExpandReplacement(rep[2..], matched, before, after)
    else if rep[0] == '$' && |rep| >= 2 && rep[1] == '`' then before + ExpandReplacement(rep[2..], matched, before, after)
    else if rep[0] == '$' && |rep| >= 2 && rep[1] == '\'' then after + ExpandReplacement(rep[2..], matched, before, after)
    else [rep[0]] + ExpandReplacement(rep[1..], matched, before, after)
  }

  /** `rep` holds none of the four replacement patterns. */
  predicate NoReplacementPattern(rep: string) {
    forall i :: 0 <= i < |rep| - 1 && rep[i] == '$' ==> rep[i + 1] != '$' && rep[i + 1] != '&' && rep[i + 1] != '`' && rep[i + 1] != '\''
  }

  /** A replacement without patterns is inserted as it is. */
  lemma {:induction false} ExpandPlain(rep: string, matched: string, before: string, after: string)
    requires NoReplacementPattern(rep)
    ensures ExpandReplacement(rep, matched, before, after) == rep
    decreases |rep|
  {
    if rep != [] {
      assert NoReplacementPattern(rep[1..]) by {
        forall i | 0 <= i < |rep[1..]| - 1 && rep[1..][i] == '$'
          ensures rep[1..][i + 1] != '$' && rep[1..][i + 1] != '&' && rep[1..][i + 1] != '`' && rep[1..][i + 1] != '\''
        {
          assert rep[i + 1] == '$' && rep[i + 2] == rep[1..][i + 1];
        }
      }
      ExpandPlain(rep[1..], matched, before, after);
      assert rep == [rep[0]] + rep[1..];
    }
  }

  /** Text without a dollar sign holds no replacement pattern. */
  lemma NoDollarNoPattern(rep: string)
    requires NoChar(rep, '$')
    ensures NoReplacementPattern(rep)
  {
  }

  /**
   * `s.replace(/pat/g, rep)` for a pattern without metacharacters, scanning `s` from index
   * `i`: each match is replaced by `rep` with its patterns expanded against the whole `s`.
   */
  function ReplaceFrom(s: string, pat: string, rep: string, i: nat): string
    requires pat != [] && i <= |s|
    decreases |s| - i
  {
    if i == |s| then []
    else if OccursAt(s, pat, i) then
      ExpandReplacement(rep, pat, s[..i], s[i + |pat|..]) + ReplaceFrom(s, pat, rep, i + |pat|)
    else [s[i]] + ReplaceFrom(s, pat, rep, i + 1)
  }

  /** `s.replace(/pat/g, rep)` with a string replacement, as JavaScript computes it. */
  function ReplaceAllPattern(s: string, pat: string, rep: string): string
    requires pat != []
  {
    ReplaceFrom(s, pat, rep, 0)
  }

  /** Without replacement patterns the JavaScript replace is the literal one. */
  lemma {:induction false} ReplaceFromPlain(s: string, pat: string, rep: string, i: nat)
    requires pat != [] && i <= |s| && NoReplacementPattern(rep)
    ensures ReplaceFrom(s, pat, rep, i) == ReplaceAll(s[i..], pat, rep)
    decreases |s| - i
  {
    if i < |s| {
      if OccursAt(s, pat, i) {
        ReplaceAllAtMatch(s, pat, rep, i);
        ExpandPlain(rep, pat, s[..i], s[i + |pat|..]);
        ReplaceFromPlain(s, pat, rep, i + |pat|);
      } else {
        ReplaceAllAtOther(s, pat, rep, i);
        ReplaceFromPlain(s, pat, rep, i + 1);
      }
    }
  }

  /** The literal replace on the suffix from a match: `rep`, then the rest after the match. */
  lemma ReplaceAllAtMatch(s: string, pat: string, rep: string, i: nat)
    requires pat != [] && OccursAt(s, pat, i)
    ensures ReplaceAll(s[i..], pat, rep) == rep + ReplaceAll(s[i + |pat|..], pat, rep)
  {
    OccursAtSuffix(s, pat, i);
  }

  /** The literal replace on the suffix from a non-match: its first character, then the rest. */
  lemma ReplaceAllAtOther(s: string, pat: string, rep: string, i: nat)
    requires pat != [] && i < |s| && !OccursAt(s, pat, i)
    ensures ReplaceAll(s[i..], pat, rep) == [s[i]] + ReplaceAll(s[i + 1..], pat, rep)
  {
    OccursAtSuffix(s, pat, i);
  }

  /** A match at `i` is a match at the start of the suffix from `i`. */
  lemma OccursAtSuffix(s: string, pat: string, i: nat)
    requires i < |s|
    ensures OccursAt(s, pat, i) <==> StartsWith(s[i..], pat)
    ensures OccursAt(s, pat, i) ==> s[i..][|pat|..] == s[i + |pat|..]
    ensures s[i..][1..] == s[i + 1..]
  {
    var t := s[i..];
    assert |pat| <= |t| ==> t[..|pat|] == s[i..i + |pat|];
  }

  lemma ReplaceAllPatternPlain(s: string, pat: string, rep: string)
    requires pat != [] && NoReplacementPattern(rep)
    ensures ReplaceAllPattern(s, pat, rep) == ReplaceAll(s, pat, rep)
  {
    ReplaceFromPlain(s, pat, rep, 0);
    assert s[0..] == s;
  }

  /** Where the pattern does not occur, the JavaScript replace changes nothing, whatever `rep` holds. */
  lemma {:induction false} ReplaceFromAbsent(s: string, pat: string, rep: string, i: nat)
    requires pat != [] && i <= |s| && !Contains(s, pat)
    ensures ReplaceFrom(s, pat, rep, i) == s[i..]
    decreases |s| - i
  {
    if i < |s| {
      assert !OccursAt(s, pat, i);
      ReplaceFromAbsent(s, pat, rep, i + 1);
      assert s[i..] == [s[i]] + s[i + 1..];
    }
  }

  lemma ReplaceAllPatternAbsent(s: string, pat: string, rep: string)
    requires pat != [] && !Contains(s, pat)
    ensures ReplaceAllPattern(s, pat, rep) == s
  {
    ReplaceFromAbsent(s, pat, rep, 0);
    assert s[0..] == s;
  }

  /** Replacing a whole string by `rep` expands `rep` with nothing before or after the match. */
  lemma ReplaceAllPatternWhole(t: string, rep: string)
    requires t != []
    ensures ReplaceAllPattern(t, t, rep) == ExpandReplacement(rep, t, [], [])
  {
    assert OccursAt(t, t, 0) by { assert t[0..|t|] == t; }
    assert t[..0] == [] && t[|t|..] == [];
    assert ReplaceFrom(t, t, rep, 0) == ExpandReplacement(rep, t, [], []) + ReplaceFrom(t, t, rep, |t|);
  }

  /** A pattern cannot occur in text that lacks its first character. */
  lemma MissingFirstChar(s: string, pat: string)
    requires pat != [] && NoChar(s, pat[0])
    ensures !Contains(s, pat)
  {
    forall i: nat ensures !OccursAt(s, pat, i) {
      if i + |pat| <= |s| {
        assert s[i..i + |pat|][0] == s[i];
      }
    }
  }

  /** `items.join(sep)`. */
  function JoinWith(items: seq<string>, sep: string): string {
    if items == [] then []
    else if |items| == 1 then items[0]
    else items[0] + sep + JoinWith(items[1..], sep)
  }

  /** Joining one more item appends the separator and the item. */
  lemma {:induction false} JoinWithSnoc(items: seq<string>, x: string, sep: string)
    requires items != []
    ensures JoinWith(items + [x], sep) == JoinWith(items, sep) + sep + x
    decreases |items|
  {
    var all := items + [x];
    if |items| == 1 {
      assert all[1..] == [x];
    } else {
      assert all[1..] == items[1..] + [x];
      JoinWithSnoc(items[1..], x, sep);
    }
  }

  /** `items.join("")`. */
  function Concat(items: seq<string>): string {
    if items == [] then [] else items[0] + Concat(items[1..])
  }

  /** `s.replace(/c/g, "")` for a single character. */
  function RemoveChar(s: string, c: char): (r: string)
    ensures NoChar(r, c)
  {
    if s == [] then [] else (if s[0] == c then [] else [s[0]]) + RemoveChar(s[1..], c)
  }

  lemma {:induction false} RemoveCharAppend(a: string, b: string, c: char)
    ensures RemoveChar(a + b, c) == RemoveChar(a, c) + RemoveChar(b, c)
    decreases |a|
  {
    if a != [] {
      assert (a + b)[1..] == a[1..] + b;
      RemoveCharAppend(a[1..], b, c);
    } else {
      assert a + b == b;
    }
  }

  lemma {:induction false} RemoveCharAbsent(s: string, c: char)
    requires NoChar(s, c)
    ensures RemoveChar(s, c) == s
    decreases |s|
  {
    if s != [] {
      RemoveCharAbsent(s[1..], c);
    }
  }

  function Digit(d: nat): char
    requires d < 10
  {
    "0123456789"[d]
  }

  function NatToString(n: nat): (r: string)
    ensures r != []
  {
    if n < 10 then [Digit(n)] else NatToString(n / 10) + [Digit(n % 10)]
  }

  /** Number.prototype.toString for an integer value. */
  function IntToString(i: int): string {
    if i < 0 then "-" + NatToString(-i) else NatToString(i)
  }
}
