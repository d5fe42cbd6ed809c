/**
 * The DMG target of dmg-builder (packages/dmg-builder/src/dmg.ts): the volume name, the
 * resolved DMG options, the size estimate of the image, the icon-location list handed to
 * dmgbuild, the retina background rule and the hdiutil argument lists. Commands, stat
 * results and environment variables are parameters.
 */
module Dmg {
  import opened Support
  import Paths
  import DmgUtil

  // ---------------------------------------------------------------------------
  // computeVolumeName

  /** The parts of the packager's AppInfo the volume name uses. */
  datatype AppInfo = AppInfo(productFilename: string, version: string, name: string, productName: string)

  /** bundleShortVersion when it is set and non-empty, else the app version. */
  function ShortVersion(info: AppInfo, bundleShortVersion: Option<string>): string {
    OrElse(bundleShortVersion, info.version)
  }

  /** The placeholders of a custom title with their values, in the order they are replaced. */
  function VolumeSubstitutions(info: AppInfo, shortVersion: string, archSuffix: string): seq<(string, string)> {
    [("${arch}", archSuffix), ("${shortVersion}", shortVersion), ("${version}", info.version),
     ("${name}", info.name), ("${productName}", info.productName)]
  }

  /**
   * Applies each (placeholder, value) pair in turn, every occurrence of one before the next,
   * with JavaScript's `String.prototype.replace` semantics: a `$$`, `$&`, `` $` `` or `$'` in
   * the value is expanded (see ReplaceAllPattern).
   */
  function Substitute(s: string, subs: seq<(string, string)>): string
    requires forall i :: 0 <= i < |subs| ==> subs[i].0 != []
    decreases |subs|
  {
    if subs == [] then s else Substitute(ReplaceAllPattern(s, subs[0].0, subs[0].1), subs[1..])
  }

  /**
   * DmgTarget.computeVolumeName: "<productFilename> <shortVersion><archSuffix>" without a
   * custom title; otherwise the title with its placeholders replaced. `archSuffix` is what
   * getArchSuffix returns for the arch being built.
   */
  function ComputeVolumeName(info: AppInfo, bundleShortVersion: Option<string>, archSuffix: string, custom: Option<string>): (r: string)
    ensures custom.None? ==> r == info.productFilename + " " + ShortVersion(info, bundleShortVersion) + archSuffix
    ensures custom.None? && bundleShortVersion.Some? && bundleShortVersion.value != "" ==>
              EndsWith(r, " " + bundleShortVersion.value + archSuffix)
  {
    var shortVersion := ShortVersion(info, bundleShortVersion);
    if custom.None? then
      var r := info.productFilename + " " + shortVersion + archSuffix;
      assert r == info.productFilename + (" " + shortVersion + archSuffix);
      r
    else
      Substitute(custom.value, VolumeSubstitutions(info, shortVersion, archSuffix))
  }

  /** Substitution leaves a string alone when none of the placeholders occurs in it. */
  lemma {:induction false} SubstituteAbsent(s: string, subs: seq<(string, string)>)
    requires forall i :: 0 <= i < |subs| ==> subs[i].0 != [] && !Contains(s, subs[i].0)
    ensures Substitute(s, subs) == s
    decreases |subs|
  {
    if subs != [] {
      ReplaceAllPatternAbsent(s, subs[0].0, subs[0].1);
      SubstituteAbsent(s, subs[1..]);
    }
  }

  /** A custom title containing none of the five placeholders is the volume name as it is. */
  lemma VolumeNameWithoutPlaceholders(info: AppInfo, bundleShortVersion: Option<string>, archSuffix: string, title: string)
    requires forall t :: t in ["${arch}", "${shortVersion}", "${version}", "${name}", "${productName}"] ==> !Contains(title, t)
    ensures ComputeVolumeName(info, bundleShortVersion, archSuffix, Some(title)) == title
  {
    var subs := VolumeSubstitutions(info, ShortVersion(info, bundleShortVersion), archSuffix);
    forall i | 0 <= i < |subs| ensures !Contains(title, subs[i].0) {
      assert subs[i].0 in ["${arch}", "${shortVersion}", "${version}", "${name}", "${productName}"];
    }
    SubstituteAbsent(title, subs);
  }

  /** Placeholders are `$` followed by a `$`-free tail of at least two characters. */
  predicate PlaceholderShaped(t: string) {
    |t| >= 3 && t[0] == '$' && NoChar(t[1..], '$')
  }

  /**
   * Substitutions whose placeholders are told apart by their third character and whose
   * values hold no `$` (so no value is mistaken for a later placeholder or a replacement
   * pattern).
   */
  predicate DistinctPlaceholders(subs: seq<(string, string)>) {
    PlaceholdersApart(subs) && forall i :: 0 <= i < |subs| ==> NoChar(subs[i].1, '$')
  }

  /** Placeholder-shaped patterns, told apart by their third character. */
  predicate PlaceholdersApart(subs: seq<(string, string)>) {
    (forall i :: 0 <= i < |subs| ==> PlaceholderShaped(subs[i].0)) &&
    (forall i, k :: 0 <= i < |subs| && 0 <= k < |subs| && i != k ==> subs[i].0[2] != subs[k].0[2])
  }

  lemma ApartTail(subs: seq<(string, string)>)
    requires subs != [] && PlaceholdersApart(subs)
    ensures PlaceholdersApart(subs[1..])
  {
    var tail := subs[1..];
    forall i | 0 <= i < |tail| ensures tail[i] == subs[i + 1] { }
  }

  /** A placeholder does not occur inside another one with a different third character. */
  lemma PlaceholderLacksOther(q: string, pat: string)
    requires PlaceholderShaped(q) && PlaceholderShaped(pat) && q[2] != pat[2]
    ensures !Contains(q, pat)
  {
    forall i: nat ensures !OccursAt(q, pat, i) {
      if i + |pat| <= |q| {
        assert q[i..i + |pat|][0] == q[i];
        assert q[i..i + |pat|][2] == q[i + 2];
        if i > 0 {
          assert q[1..][i - 1] == q[i];
        }
      }
    }
  }

  /** A custom title as a sequence of parts: `$`-free text, or the placeholder with the given index. */
  datatype TitlePart = Text(text: string) | Placeholder(index: nat)

  /** A text part is free of `$`; a placeholder index is below `n`. */
  predicate WellFormedPart(p: TitlePart, n: nat) {
    match p
    case Text(t) => NoChar(t, '$')
    case Placeholder(j) => j < n
  }

  predicate WellFormedTitle(parts: seq<TitlePart>, n: nat) {
    forall k :: 0 <= k < |parts| ==> WellFormedPart(parts[k], n)
  }

  /** A part as written: text as it is, a placeholder spelled out. */
  function PartText(p: TitlePart, subs: seq<(string, string)>): string
    requires WellFormedPart(p, |subs|)
  {
    match p
    case Text(t) => t
    case Placeholder(j) => subs[j].0
  }

  /** A part as intended: text as it is, a placeholder by its value. */
  function PartValue(p: TitlePart, subs: seq<(string, string)>): string
    requires WellFormedPart(p, |subs|)
  {
    match p
    case Text(t) => t
    case Placeholder(j) => subs[j].1
  }

  /** The title as written. */
  function RenderTitle(parts: seq<TitlePart>, subs: seq<(string, string)>): string
    requires WellFormedTitle(parts, |subs|)
  {
    if parts == [] then [] else PartText(parts[0], subs) + RenderTitle(parts[1..], subs)
  }

  /** The intended volume name. */
  function FillTitle(parts: seq<TitlePart>, subs: seq<(string, string)>): string
    requires WellFormedTitle(parts, |subs|)
  {
    if parts == [] then [] else PartValue(parts[0], subs) + FillTitle(parts[1..], subs)
  }

  /** A part once the first placeholder has been replaced by `v`; the other placeholders move down by one. */
  function StepPart(p: TitlePart, v: string): TitlePart {
    match p
    case Text(t) => Text(t)
    case Placeholder(j) => if j == 0 then Text(v) else Placeholder(j - 1)
  }

  function StepTitle(parts: seq<TitlePart>, v: string): seq<TitlePart> {
    if parts == [] then [] else [StepPart(parts[0], v)] + StepTitle(parts[1..], v)
  }

  /** The head and the tail of a well-formed title are well formed. */
  lemma WellFormedSplit(parts: seq<TitlePart>, n: nat)
    requires parts != [] && WellFormedTitle(parts, n)
    ensures WellFormedPart(parts[0], n) && WellFormedTitle(parts[1..], n)
  {
    forall k | 0 <= k < |parts| - 1 ensures WellFormedPart(parts[1..][k], n) {
      assert parts[1..][k] == parts[k + 1];
    }
  }

  /** Stepping a part keeps it well formed and keeps its intended value. */
  lemma StepPartFacts(p: TitlePart, subs: seq<(string, string)>)
    requires subs != [] && WellFormedPart(p, |subs|) && NoChar(subs[0].1, '$')
    ensures WellFormedPart(StepPart(p, subs[0].1), |subs| - 1)
    ensures PartValue(StepPart(p, subs[0].1), subs[1..]) == PartValue(p, subs)
  {
    if p.Placeholder? && p.index > 0 {
      assert subs[1..][p.index - 1] == subs[p.index];
    }
  }

  lemma {:induction false} StepTitleWellFormed(parts: seq<TitlePart>, subs: seq<(string, string)>)
    requires subs != [] && WellFormedTitle(parts, |subs|) && NoChar(subs[0].1, '$')
    ensures WellFormedTitle(StepTitle(parts, subs[0].1), |subs| - 1)
    decreases |parts|
  {
    if parts != [] {
      var v := subs[0].1;
      WellFormedSplit(parts, |subs|);
      StepPartFacts(parts[0], subs);
      StepTitleWellFormed(parts[1..], subs);
      var r := StepTitle(parts, v);
      forall k | 0 <= k < |r| ensures WellFormedPart(r[k], |subs| - 1) {
        if k > 0 {
          assert r[k] == StepTitle(parts[1..], v)[k - 1];
        }
      }
    }
  }

  /** Replacing a placeholder leaves a different placeholder in front of the text alone. */
  lemma SkipPlaceholder(q: string, rest: string, pat: string, v: string)
    requires PlaceholderShaped(q) && PlaceholderShaped(pat) && q[2] != pat[2]
    ensures ReplaceAll(q + rest, pat, v) == q + ReplaceAll(rest, pat, v)
  {
    var w := q + rest;
    assert !StartsWith(w, pat) by {
      if |pat| <= |w| {
        assert w[..|pat|][2] == q[2];
      }
    }
    assert w[1..] == q[1..] + rest;
    ReplaceAllKeepsPrefix(q[1..], rest, pat, v, 0);
    assert [q[0]] + q[1..] == q;
  }

  /** Replacing the first placeholder in front of the text of a part gives the stepped part's text. */
  lemma ReplacePartStep(p: TitlePart, rest: string, subs: seq<(string, string)>)
    requires subs != [] && DistinctPlaceholders(subs) && WellFormedPart(p, |subs|)
    ensures WellFormedPart(StepPart(p, subs[0].1), |subs| - 1)
    ensures ReplaceAll(PartText(p, subs) + rest, subs[0].0, subs[0].1) ==
            PartText(StepPart(p, subs[0].1), subs[1..]) + ReplaceAll(rest, subs[0].0, subs[0].1)
  {
    var pat, v := subs[0].0, subs[0].1;
    StepPartFacts(p, subs);
    match p
    case Text(t) =>
      ReplaceAllKeepsPrefix(t, rest, pat, v, 0);
    case Placeholder(j) =>
      if j == 0 {
        ReplaceAllAtStart(pat, rest, v);
      } else {
        SkipPlaceholder(subs[j].0, rest, pat, v);
        assert subs[1..][j - 1] == subs[j];
      }
  }

  /** One replace step on a rendered title is the rendering of the stepped parts. */
  lemma {:induction false} ReplaceTitleStep(parts: seq<TitlePart>, subs: seq<(string, string)>)
    requires subs != [] && DistinctPlaceholders(subs) && WellFormedTitle(parts, |subs|)
    ensures WellFormedTitle(StepTitle(parts, subs[0].1), |subs| - 1)
    ensures ReplaceAll(RenderTitle(parts, subs), subs[0].0, subs[0].1) == RenderTitle(StepTitle(parts, subs[0].1), subs[1..])
    decreases |parts|
  {
    StepTitleWellFormed(parts, subs);
    if parts != [] {
      WellFormedSplit(parts, |subs|);
      ReplaceTitleStep(parts[1..], subs);
      ReplacePartStep(parts[0], RenderTitle(parts[1..], subs), subs);
      var stepped := StepTitle(parts, subs[0].1);
      assert stepped[1..] == StepTitle(parts[1..], subs[0].1);
    }
  }

  /** Stepping the parts does not change the intended name. */
  lemma {:induction false} FillTitleStep(parts: seq<TitlePart>, subs: seq<(string, string)>)
    requires subs != [] && WellFormedTitle(parts, |subs|) && NoChar(subs[0].1, '$')
    ensures WellFormedTitle(StepTitle(parts, subs[0].1), |subs| - 1)
    ensures FillTitle(StepTitle(parts, subs[0].1), subs[1..]) == FillTitle(parts, subs)
    decreases |parts|
  {
    StepTitleWellFormed(parts, subs);
    if parts != [] {
      WellFormedSplit(parts, |subs|);
      FillTitleStep(parts[1..], subs);
      StepPartFacts(parts[0], subs);
      var stepped := StepTitle(parts, subs[0].1);
      assert stepped[1..] == StepTitle(parts[1..], subs[0].1);
    }
  }

  /** With no placeholders left, the written and the intended title are the same text. */
  lemma {:induction false} RenderTextOnly(parts: seq<TitlePart>)
    requires WellFormedTitle(parts, 0)
    ensures RenderTitle(parts, []) == FillTitle(parts, [])
    decreases |parts|
  {
    if parts != [] {
      WellFormedSplit(parts, 0);
      RenderTextOnly(parts[1..]);
    }
  }

  /** The chain of replaces turns a rendered title into the intended one. */
  lemma {:induction false} SubstituteTitle(parts: seq<TitlePart>, subs: seq<(string, string)>)
    requires DistinctPlaceholders(subs) && WellFormedTitle(parts, |subs|)
    ensures Substitute(RenderTitle(parts, subs), subs) == FillTitle(parts, subs)
    decreases |subs|
  {
    if subs == [] {
      RenderTextOnly(parts);
    } else {
      var v := subs[0].1;
      NoDollarNoPattern(v);
      ReplaceAllPatternPlain(RenderTitle(parts, subs), subs[0].0, v);
      ReplaceTitleStep(parts, subs);
      FillTitleStep(parts, subs);
      ApartTail(subs);
      assert DistinctPlaceholders(subs[1..]) by {
        forall i | 0 <= i < |subs| - 1 ensures NoChar(subs[1..][i].1, '$') {
          assert subs[1..][i] == subs[i + 1];
        }
      }
      SubstituteTitle(StepTitle(parts, v), subs[1..]);
    }
  }

  /** Facts about the five placeholder spellings. */
  lemma VolumePlaceholdersShaped(info: AppInfo, shortVersion: string, archSuffix: string)
    ensures var subs := VolumeSubstitutions(info, shortVersion, archSuffix);
            |subs| == 5 && PlaceholdersApart(subs)
  {
    var subs := VolumeSubstitutions(info, shortVersion, archSuffix);
    assert subs[0].0[2] == 'a' && subs[1].0[2] == 's' && subs[2].0[2] == 'v' && subs[3].0[2] == 'n' && subs[4].0[2] == 'p';
    PlaceholderSpellingsShaped();
    assert PlaceholderShaped(subs[0].0) && PlaceholderShaped(subs[1].0) && PlaceholderShaped(subs[2].0);
    assert PlaceholderShaped(subs[3].0) && PlaceholderShaped(subs[4].0);
  }

  lemma PlaceholderSpellingsShaped()
    ensures PlaceholderShaped("${arch}") && PlaceholderShaped("${shortVersion}") && PlaceholderShaped("${version}")
    ensures PlaceholderShaped("${name}") && PlaceholderShaped("${productName}")
  {
    PlaceholderOfName("arch");
    PlaceholderOfName("shortVersion");
    PlaceholderOfName("version");
    PlaceholderOfName("name");
    PlaceholderOfName("productName");
  }

  /** "${<name>}" is placeholder-shaped for a `$`-free name. */
  lemma PlaceholderOfName(name: string)
    requires NoChar(name, '$')
    ensures PlaceholderShaped("${" + name + "}")
  {
    var t := "${" + name + "}";
    assert t[1..] == "{" + name + "}";
    NoCharAppend("{", name, '$');
    NoCharAppend("{" + name, "}", '$');
  }

  /**
   * A custom title made of `$`-free text and any number of the placeholders "${arch}",
   * "${shortVersion}", "${version}", "${name}" and "${productName}" (indices 0 to 4) becomes
   * the same text with each placeholder replaced by the arch suffix, the short version, the
   * app's version, name and product name, provided none of these values holds a `$`.
   */
  lemma VolumeNameFillsPlaceholders(info: AppInfo, bundleShortVersion: Option<string>, archSuffix: string, parts: seq<TitlePart>)
    requires WellFormedTitle(parts, 5)
    requires NoChar(archSuffix, '$') && NoChar(ShortVersion(info, bundleShortVersion), '$')
    requires NoChar(info.version, '$') && NoChar(info.name, '$') && NoChar(info.productName, '$')
    ensures var subs := VolumeSubstitutions(info, ShortVersion(info, bundleShortVersion), archSuffix);
            ComputeVolumeName(info, bundleShortVersion, archSuffix, Some(RenderTitle(parts, subs))) == FillTitle(parts, subs)
  {
    var subs := VolumeSubstitutions(info, ShortVersion(info, bundleShortVersion), archSuffix);
    VolumePlaceholdersShaped(info, ShortVersion(info, bundleShortVersion), archSuffix);
    SubstituteTitle(parts, subs);
  }

  /** The usual custom title "${productName} ${version}" gives the product name and the version. */
  lemma VolumeNameProductAndVersion(info: AppInfo, bundleShortVersion: Option<string>, archSuffix: string)
    requires NoChar(archSuffix, '$') && NoChar(ShortVersion(info, bundleShortVersion), '$')
    requires NoChar(info.version, '$') && NoChar(info.name, '$') && NoChar(info.productName, '$')
    ensures ComputeVolumeName(info, bundleShortVersion, archSuffix, Some("${productName} ${version}")) == info.productName + " " + info.version
  {
    var subs := VolumeSubstitutions(info, ShortVersion(info, bundleShortVersion), archSuffix);
    var parts := [Placeholder(4), Text(" "), Placeholder(2)];
    TitleOfThree(4, " ", 2, subs);
    VolumeNameFillsPlaceholders(info, bundleShortVersion, archSuffix, parts);
    assert "${productName}" + " " + "${version}" == "${productName} ${version}";
  }

  /** A title of a placeholder, text and a placeholder, written out and filled in. */
  lemma TitleOfThree(i: nat, x: string, j: nat, subs: seq<(string, string)>)
    requires i < |subs| && j < |subs| && NoChar(x, '$')
    ensures var parts := [Placeholder(i), Text(x), Placeholder(j)];
            WellFormedTitle(parts, |subs|) &&
            RenderTitle(parts, subs) == subs[i].0 + x + subs[j].0 &&
            FillTitle(parts, subs) == subs[i].1 + x + subs[j].1
  {
    var parts := [Placeholder(i), Text(x), Placeholder(j)];
    var tail := [Text(x), Placeholder(j)];
    TitleOfOne(j, subs);
    assert WellFormedTitle(tail, |subs|) by {
      assert WellFormedPart(tail[0], |subs|) && WellFormedPart(tail[1], |subs|);
    }
    assert tail[1..] == [Placeholder(j)];
    assert WellFormedTitle(parts, |subs|) by {
      assert WellFormedPart(parts[0], |subs|);
      forall k | 1 <= k < 3 ensures WellFormedPart(parts[k], |subs|) {
        assert parts[k] == tail[k - 1];
      }
    }
    assert parts[1..] == tail;
  }

  /** A title of one placeholder, written out and filled in. */
  lemma TitleOfOne(j: nat, subs: seq<(string, string)>)
    requires j < |subs|
    ensures WellFormedTitle([Placeholder(j)], |subs|)
    ensures RenderTitle([Placeholder(j)], subs) == subs[j].0
    ensures FillTitle([Placeholder(j)], subs) == subs[j].1
  {
    var parts := [Placeholder(j)];
    assert WellFormedPart(parts[0], |subs|);
    assert parts[1..] == [];
    assert RenderTitle(parts, subs) == subs[j].0 + [];
    assert FillTitle(parts, subs) == subs[j].1 + [];
  }

  /** Substitution skips its first `n` steps when none of those placeholders occurs. */
  lemma {:induction false} SubstituteSkip(s: string, subs: seq<(string, string)>, n: nat)
    requires forall i :: 0 <= i < |subs| ==> subs[i].0 != []
    requires n <= |subs| && forall i :: 0 <= i < n ==> !Contains(s, subs[i].0)
    ensures Substitute(s, subs) == Substitute(s, subs[n..])
    decreases n
  {
    if n > 0 {
      ReplaceAllPatternAbsent(s, subs[0].0, subs[0].1);
      SubstituteSkip(s, subs[1..], n - 1);
      assert subs[1..][n - 1..] == subs[n..];
    }
  }

  /**
   * Values are inserted with JavaScript's replacement patterns: a title of just
   * "${productName}" becomes the product name with `$$`, `$&`, `` $` `` and `$'` expanded
   * (the match is the placeholder itself, with nothing before or after it).
   */
  lemma VolumeNameExpandsPatterns(info: AppInfo, bundleShortVersion: Option<string>, archSuffix: string)
    ensures ComputeVolumeName(info, bundleShortVersion, archSuffix, Some("${productName}")) ==
            ExpandReplacement(info.productName, "${productName}", "", "")
  {
    var subs := VolumeSubstitutions(info, ShortVersion(info, bundleShortVersion), archSuffix);
    VolumePlaceholdersShaped(info, ShortVersion(info, bundleShortVersion), archSuffix);
    SubstituteLastAlone(subs);
  }

  /** A title of just the last placeholder passes the earlier steps and becomes its expanded value. */
  lemma SubstituteLastAlone(subs: seq<(string, string)>)
    requires subs != [] && PlaceholdersApart(subs)
    ensures Substitute(subs[|subs| - 1].0, subs) == ExpandReplacement(subs[|subs| - 1].1, subs[|subs| - 1].0, [], [])
  {
    var j := |subs| - 1;
    var t := subs[j].0;
    forall i | 0 <= i < j ensures !Contains(t, subs[i].0) {
      PlaceholderLacksOther(t, subs[i].0);
    }
    SubstituteSkip(t, subs, j);
    assert subs[j..] == [subs[j]];
    ReplaceAllPatternWhole(t, subs[j].1);
  }

  /** So a product name "a$$b" puts "a$b" in the volume name, and "$&" puts the placeholder itself. */
  lemma VolumeNameDollarExamples(info: AppInfo, bundleShortVersion: Option<string>, archSuffix: string)
    ensures info.productName == "a$$b" ==> ComputeVolumeName(info, bundleShortVersion, archSuffix, Some("${productName}")) == "a$b"
    ensures info.productName == "$&" ==> ComputeVolumeName(info, bundleShortVersion, archSuffix, Some("${productName}")) == "${productName}"
  {
    VolumeNameExpandsPatterns(info, bundleShortVersion, archSuffix);
    var t := "${productName}";
    if info.productName == "a$$b" {
      var v := info.productName;
      assert v[1..][2..] == "b" && v[1..] == "$$b";
      assert ExpandReplacement("b", t, "", "") == "b" + ExpandReplacement([], t, "", "");
    } else if info.productName == "$&" {
      assert info.productName[2..] == [];
    }
  }

  /**
   * The replacements run in order, so a value put in for "${arch}" is itself scanned for
   * the later placeholders: an arch suffix of "${version}" ends up as the app version.
   */
  lemma VolumeNameReplacesInOrder(info: AppInfo, bundleShortVersion: Option<string>)
    requires NoChar(ShortVersion(info, bundleShortVersion), '$')
    requires NoChar(info.version, '$') && NoChar(info.name, '$') && NoChar(info.productName, '$')
    ensures ComputeVolumeName(info, bundleShortVersion, "${version}", Some("${arch}")) == info.version
  {
    var subs := VolumeSubstitutions(info, ShortVersion(info, bundleShortVersion), "${version}");
    ArchBecomesVersionToken();
    VersionTokenAfterArch(info, ShortVersion(info, bundleShortVersion));
    SubstituteFirstStep("${arch}", subs);
  }

  /** The first step of a substitution chain, as a fact to call on. */
  lemma SubstituteFirstStep(s: string, subs: seq<(string, string)>)
    requires subs != [] && forall i :: 0 <= i < |subs| ==> subs[i].0 != []
    ensures Substitute(s, subs) == Substitute(ReplaceAllPattern(s, subs[0].0, subs[0].1), subs[1..])
  {
  }

  /** After the "${arch}" step, a lone "${version}" becomes the app version. */
  lemma VersionTokenAfterArch(info: AppInfo, shortVersion: string)
    requires NoChar(shortVersion, '$')
    requires NoChar(info.version, '$') && NoChar(info.name, '$') && NoChar(info.productName, '$')
    ensures Substitute("${version}", VolumeSubstitutions(info, shortVersion, "${version}")[1..]) == info.version
  {
    var rest := VolumeSubstitutions(info, shortVersion, "${version}")[1..];
    VolumePlaceholdersShaped(info, shortVersion, "${version}");
    ApartTail(VolumeSubstitutions(info, shortVersion, "${version}"));
    TitleOfOne(1, rest);
    SubstituteTitle([Placeholder(1)], rest);
    assert rest[1] == ("${version}", info.version);
  }

  /** The first replacement turns a title of just "${arch}" into the arch suffix "${version}". */
  lemma ArchBecomesVersionToken()
    ensures ReplaceAllPattern("${arch}", "${arch}", "${version}") == "${version}"
  {
    var v := "${version}";
    assert NoReplacementPattern(v) by {
      forall i | 0 <= i < |v| - 1 && v[i] == '$' ensures v[i + 1] == '{' {
        assert i == 0;
      }
    }
    ReplaceAllPatternWhole("${arch}", v);
    ExpandPlain(v, "${arch}", [], []);
  }

  // ---------------------------------------------------------------------------
  // computeDmgOptions

  /** hdiutil image formats. */
  datatype DmgFormat = UDRW | UDRO | UDCO | UDZO | UDBZ | ULFO {
    function Name(): string {
      match this
      case UDRW => "UDRW"
      case UDRO => "UDRO"
      case UDCO => "UDCO"
      case UDZO => "UDZO"
      case UDBZ => "UDBZ"
      case ULFO => "ULFO"
    }
  }

  datatype ContentType = Link | File | Dir

  /** One icon placed in the DMG window. */
  datatype DmgContent = DmgContent(x: int, y: int, contentType: Option<ContentType>, name: Option<string>, path: Option<string>)

  datatype DmgWindow = DmgWindow(x: Option<int>, y: Option<int>, width: Option<int>, height: Option<int>)

  /**
   * The `dmg` section of the configuration. The icon distinguishes left out (Unset) from an
   * explicit null; for the other optional fields undefined and null behave alike.
   */
  datatype DmgOptions = DmgOptions(
    title: Option<string>,
    icon: Setting<string>,
    iconSize: Option<int>,
    iconTextSize: Option<int>,
    background: Option<string>,
    backgroundColor: Option<string>,
    format: Option<DmgFormat>,
    contents: Option<seq<DmgContent>>,
    window: Option<DmgWindow>)

  datatype Compression = Store | Normal | Maximum

  /** What computeDmgOptions asks of the packager, already resolved. */
  datatype PackagerContext = PackagerContext(
    iconPath: Option<string>,
    resourceList: seq<string>,
    buildResourcesDir: string,
    templateDir: string,
    projectDir: string,
    compression: Compression)

  datatype InvalidConfigurationError = InvalidConfigurationError(message: string)

  const EMPTY_ICON_MESSAGE := "dmg.icon cannot be specified as empty string"
  const BACKGROUND_CONFLICT_MESSAGE := "Both dmg.backgroundColor and dmg.background are specified \U{2014} please set the only one"

  /** The app at (130, 220) and a link to /Applications at (410, 220). */
  const DEFAULT_CONTENTS: seq<DmgContent> := [
    DmgContent(130, 220, None, None, None),
    DmgContent(410, 220, Some(Link), None, Some("/Applications"))
  ]

  /** The icon after defaulting: only a left-out icon is looked up, an explicit null stays null. */
  function ResolvedIcon(options: DmgOptions, packager: PackagerContext): Setting<string> {
    if options.icon.Unset? then (if packager.iconPath.Some? then Set(packager.iconPath.value) else Null)
    else options.icon
  }

  predicate IsBlankIcon(icon: Setting<string>) {
    icon.Set? && IsEmptyOrSpaces(icon.value)
  }

  /** The format used when none is configured. */
  function DefaultFormat(compressionLevelEnv: Option<string>, compression: Compression): (f: DmgFormat) {
    if compressionLevelEnv.Some? then UDZO
    else if compression == Store then UDRO
    else if compression == Maximum then UDBZ
    else UDZO
  }

  /**
   * The default format is always a read-only one; it is uncompressed only for "store" and
   * bzip2 only for "maximum", and the compression-level override forces zlib.
   */
  lemma DefaultFormatIsReadOnly(compressionLevelEnv: Option<string>, compression: Compression)
    ensures DefaultFormat(compressionLevelEnv, compression) in {UDRO, UDZO, UDBZ}
    ensures DefaultFormat(compressionLevelEnv, compression) == UDRO <==> compressionLevelEnv.None? && compression == Store
    ensures DefaultFormat(compressionLevelEnv, compression) == UDBZ <==> compressionLevelEnv.None? && compression == Maximum
    ensures compressionLevelEnv.Some? ==> DefaultFormat(compressionLevelEnv, compression) == UDZO
  {
  }

  /**
   * DmgTarget.computeDmgOptions: a copy of the options with the icon, background, format
   * and contents filled in, or an InvalidConfigurationError for a blank icon or for a
   * background colour together with a background picture. The caller's options, a value
   * here, are never changed.
   */
  method ComputeDmgOptions(options: DmgOptions, packager: PackagerContext, compressionLevelEnv: Option<string>)
    returns (r: Result<DmgOptions, InvalidConfigurationError>)
    ensures r.Failure? <==>
              IsBlankIcon(ResolvedIcon(options, packager)) || (options.backgroundColor.Some? && options.background.Some?)
    ensures IsBlankIcon(ResolvedIcon(options, packager)) ==>
              r == Failure(InvalidConfigurationError(EMPTY_ICON_MESSAGE))
    ensures !IsBlankIcon(ResolvedIcon(options, packager)) && options.backgroundColor.Some? && options.background.Some? ==>
              r == Failure(InvalidConfigurationError(BACKGROUND_CONFLICT_MESSAGE))
    ensures r.Success? ==>
              r.value.icon == ResolvedIcon(options, packager) && !r.value.icon.Unset? &&
              r.value.title == options.title && r.value.iconSize == options.iconSize &&
              r.value.iconTextSize == options.iconTextSize && r.value.backgroundColor == options.backgroundColor &&
              r.value.window == options.window
    ensures r.Success? && options.backgroundColor.Some? ==> r.value.background.None?
    ensures r.Success? && options.backgroundColor.None? && options.background.None? ==>
              r.value.background == Some(DmgUtil.ComputeBackground(packager.resourceList, packager.buildResourcesDir, packager.templateDir))
    ensures r.Success? && options.backgroundColor.None? && options.background.Some? ==>
              r.value.background == Some(Paths.Resolve(packager.projectDir, options.background.value))
    ensures r.Success? && options.format.Some? ==> r.value.format == options.format
    ensures r.Success? && options.format.None? ==> r.value.format == Some(DefaultFormat(compressionLevelEnv, packager.compression))
    ensures r.Success? && options.contents.Some? ==> r.value.contents == options.contents
    ensures r.Success? && options.contents.None? ==> r.value.contents == Some(DEFAULT_CONTENTS)
  {
    var specification := options;
    if specification.icon.Unset? {
      var icon := if packager.iconPath.Some? then Set(packager.iconPath.value) else Null;
      specification := specification.(icon := icon);
    }

    if specification.icon.Set? && IsEmptyOrSpaces(specification.icon.value) {
      return Failure(InvalidConfigurationError(EMPTY_ICON_MESSAGE));
    }

    var withBackground := FillBackground(specification, packager);
    if withBackground.Failure? {
      return Failure(withBackground.error);
    }
    var filled := FillFormatAndContents(withBackground.value, packager.compression, compressionLevelEnv);
    return Success(filled);
  }

  /**
   * The background step of computeDmgOptions: a colour excludes a picture, a missing picture
   * gets the default one, and a configured one is resolved against the project directory.
   */
  method FillBackground(specification: DmgOptions, packager: PackagerContext)
    returns (r: Result<DmgOptions, InvalidConfigurationError>)
    ensures r.Failure? <==> specification.backgroundColor.Some? && specification.background.Some?
    ensures r.Failure? ==> r.error == InvalidConfigurationError(BACKGROUND_CONFLICT_MESSAGE)
    ensures r.Success? ==> r.value == specification.(background := r.value.background)
    ensures r.Success? && specification.backgroundColor.Some? ==> r.value.background.None?
    ensures r.Success? && specification.backgroundColor.None? && specification.background.None? ==>
              r.value.background == Some(DmgUtil.ComputeBackground(packager.resourceList, packager.buildResourcesDir, packager.templateDir))
    ensures r.Success? && specification.backgroundColor.None? && specification.background.Some? ==>
              r.value.background == Some(Paths.Resolve(packager.projectDir, specification.background.value))
  {
    var background := specification.background;
    if specification.backgroundColor.Some? {
      if background.Some? {
        return Failure(InvalidConfigurationError(BACKGROUND_CONFLICT_MESSAGE));
      }
      return Success(specification);
    } else if background.None? {
      var computed := DmgUtil.ComputeBackground(packager.resourceList, packager.buildResourcesDir, packager.templateDir);
      return Success(specification.(background := Some(computed)));
    } else {
      return Success(specification.(background := Some(Paths.Resolve(packager.projectDir, background.value))));
    }
  }

  /** The last steps of computeDmgOptions: the default format and the default contents. */
  method FillFormatAndContents(specification: DmgOptions, compression: Compression, compressionLevelEnv: Option<string>)
    returns (filled: DmgOptions)
    ensures filled == specification.(format := filled.format, contents := filled.contents)
    ensures specification.format.Some? ==> filled.format == specification.format
    ensures specification.format.None? ==> filled.format == Some(DefaultFormat(compressionLevelEnv, compression))
    ensures specification.contents.Some? ==> filled.contents == specification.contents
    ensures specification.contents.None? ==> filled.contents == Some(DEFAULT_CONTENTS)
  {
    filled := specification;
    if filled.format.None? {
      if compressionLevelEnv.Some? {
        filled := filled.(format := Some(UDZO));
      } else if compression == Store {
        filled := filled.(format := Some(UDRO));
      } else {
        filled := filled.(format := Some(if compression == Maximum then UDBZ else UDZO));
      }
    }

    if filled.contents.None? {
      filled := filled.(contents := Some(DEFAULT_CONTENTS));
    }
  }

  // ---------------------------------------------------------------------------
  // computeAssetSize

  /** The sum of the sizes that were found; a missing file counts as 0. */
  function PresentTotal(stats: seq<Option<nat>>): nat {
    if stats == [] then 0
    else PresentTotal(stats[..|stats| - 1]) + (if stats[|stats| - 1].Some? then stats[|stats| - 1].value else 0)
  }

  /**
   * computeAssetSize: 32 KiB plus the size of the staged image, of the icon when one is
   * configured and found (`iconStat` is statOrNull's answer) and of the background file.
   */
  method ComputeAssetSize(dmgSize: nat, icon: Setting<string>, iconStat: Option<nat>, backgroundFile: Option<string>, backgroundSize: nat)
    returns (size: nat)
    ensures size == 32 * 1024 + dmgSize
                    + (if icon.Set? && iconStat.Some? then iconStat.value else 0)
                    + (if backgroundFile.Some? then backgroundSize else 0)
    ensures size >= 32768
  {
    var stats: seq<Option<nat>> := [Some(dmgSize)];
    if icon.Set? {
      stats := stats + [iconStat];
    }
    if backgroundFile.Some? {
      stats := stats + [Some(backgroundSize)];
    }
    ghost var expected := dmgSize + (if icon.Set? && iconStat.Some? then iconStat.value else 0);
    assert PresentTotal(stats[..1]) == dmgSize by { assert stats[..1][..0] == []; }
    assert icon.Set? ==> PresentTotal(stats[..2]) == expected by {
      if icon.Set? { assert stats[..2][..1] == stats[..1]; }
    }
    size := 32 * 1024;
    for i := 0 to |stats|
      invariant size == 32 * 1024 + PresentTotal(stats[..i])
    {
      assert stats[..i + 1][..i] == stats[..i];
      if stats[i].Some? {
        size := size + stats[i].value;
      }
    }
    assert stats[..|stats|] == stats;
    if backgroundFile.Some? {
      assert stats[..|stats| - 1] == stats[..(if icon.Set? then 2 else 1)];
    }
  }

  // ---------------------------------------------------------------------------
  // computeDmgEntries

  /** `name.replace(/['\\]/g, m => "\\" + m)`: every quote and backslash gets a backslash in front. */
  function EscapeName(s: string): string {
    if s == [] then []
    else (if s[0] == '\'' || s[0] == '\\' then ['\\', s[0]] else [s[0]]) + EscapeName(s[1..])
  }

  /** Reading a Python single-quoted literal body back: a backslash takes the next character as it is. */
  function Unescape(r: string): string
    decreases |r|
  {
    if r == [] then []
    else if r[0] == '\\' && |r| >= 2 then [r[1]] + Unescape(r[2..])
    else [r[0]] + Unescape(r[1..])
  }

  /** Escaping is undone by reading the literal back, so every name reaches dmgbuild intact. */
  lemma {:induction false} UnescapeEscapeName(s: string)
    ensures Unescape(EscapeName(s)) == s
    decreases |s|
  {
    if s != [] {
      var tail := EscapeName(s[1..]);
      UnescapeEscapeName(s[1..]);
      if s[0] == '\'' || s[0] == '\\' {
        var e := ['\\', s[0]] + tail;
        assert e[2..] == tail;
      } else {
        var e := [s[0]] + tail;
        assert e[1..] == tail;
      }
      assert s == [s[0]] + s[1..];
    }
  }

  /** Within an escaped name no quote stands unescaped: each follows a backslash. */
  lemma {:induction false} EscapedQuotesFollowBackslash(s: string)
    ensures forall i :: 0 <= i < |EscapeName(s)| && EscapeName(s)[i] == '\'' ==> i > 0 && EscapeName(s)[i - 1] == '\\'
    decreases |s|
  {
    if s != [] {
      EscapedQuotesFollowBackslash(s[1..]);
      var head := if s[0] == '\'' || s[0] == '\\' then ['\\', s[0]] else [s[0]];
      var tail := EscapeName(s[1..]);
      var e := head + tail;
      forall i | 0 <= i < |e| && e[i] == '\'' ensures i > 0 && e[i - 1] == '\\' {
        if i >= |head| {
          assert e[i] == tail[i - |head|];
          if i - |head| > 0 {
            assert e[i - 1] == tail[i - |head| - 1];
          }
        }
      }
    }
  }

  lemma {:induction false} EscapeNamePlain(s: string)
    requires NoChar(s, '\'') && NoChar(s, '\\')
    ensures EscapeName(s) == s
    decreases |s|
  {
    if s != [] {
      EscapeNamePlain(s[1..]);
      assert s == [s[0]] + s[1..];
    }
  }

  /** The entry's name: its own name, else the basename of its path, else of "<productFilename>.app". */
  function EntryName(c: DmgContent, productFilename: string): string {
    OrElse(c.name, Paths.Basename(OrElse(c.path, productFilename + ".app")))
  }

  /** One icon location as dmgbuild reads it: `'name': (x, y)`. */
  function EntryItem(c: DmgContent, productFilename: string): string {
    "'" + EscapeName(EntryName(c, productFilename)) + "': (" + IntToString(c.x) + ", " + IntToString(c.y) + ")"
  }

  /** The items of the entries, in order. */
  function EntryItems(contents: seq<DmgContent>, productFilename: string): (items: seq<string>)
    ensures |items| == |contents|
  {
    if contents == [] then []
    else EntryItems(contents[..|contents| - 1], productFilename) + [EntryItem(contents[|contents| - 1], productFilename)]
  }

  lemma EntryItemsStep(contents: seq<DmgContent>, i: nat, productFilename: string)
    requires i < |contents|
    ensures EntryItems(contents[..i + 1], productFilename)
            == EntryItems(contents[..i], productFilename) + [EntryItem(contents[i], productFilename)]
  {
    assert contents[..i + 1][..i] == contents[..i];
  }

  lemma EntryItemsPair(a: DmgContent, b: DmgContent, productFilename: string)
    ensures EntryItems([a, b], productFilename) == [EntryItem(a, productFilename), EntryItem(b, productFilename)]
  {
    assert [a, b][..1] == [a];
    assert [a][..0] == [];
  }

  /**
   * computeDmgEntries, its string part: one `'name': (x, y)` item per entry, separated by
   * ",\n" (a separator is added only once the result is non-empty).
   */
  method ComputeDmgEntries(contents: seq<DmgContent>, productFilename: string) returns (result: string)
    ensures result == JoinWith(EntryItems(contents, productFilename), ",\n")
    ensures contents == [] <==> result == ""
  {
    result := "";
    for i := 0 to |contents|
      invariant result == JoinWith(EntryItems(contents[..i], productFilename), ",\n")
      invariant i == 0 <==> |result| == 0
    {
      var c := contents[i];
      var entryPath := OrElse(c.path, productFilename + ".app");
      var entryName := OrElse(c.name, Paths.Basename(entryPath));
      var escapedEntryName := EscapeName(entryName);
      var item := "'" + escapedEntryName + "': (" + IntToString(c.x) + ", " + IntToString(c.y) + ")";
      assert item == EntryItem(c, productFilename);
      ghost var done := EntryItems(contents[..i], productFilename);
      EntryItemsStep(contents, i, productFilename);
      if |result| != 0 {
        JoinWithSnoc(done, item, ",\n");
        result := result + ",\n";
      }
      result := result + item;
    }
    assert contents[..|contents|] == contents;
  }

  lemma DefaultAppEntryName(productFilename: string)
    requires productFilename != [] && NoChar(productFilename, '/')
    requires NoChar(productFilename, '\'') && NoChar(productFilename, '\\')
    ensures EscapeName(EntryName(DEFAULT_CONTENTS[0], productFilename)) == productFilename + ".app"
  {
    var app := productFilename + ".app";
    NoCharAppend(productFilename, ".app", '/');
    NoCharAppend(productFilename, ".app", '\'');
    NoCharAppend(productFilename, ".app", '\\');
    Paths.DirnameOfBareName(app);
    EscapeNamePlain(app);
  }

  lemma DefaultLinkEntryName(productFilename: string)
    ensures EscapeName(EntryName(DEFAULT_CONTENTS[1], productFilename)) == "Applications"
  {
    ApplicationsBasename();
    EscapeApplications();
  }

  lemma EscapeApplications()
    ensures EscapeName("Applications") == "Applications"
  {
    EscapeNamePlain("Applications");
  }

  lemma ApplicationsBasename()
    ensures Paths.Basename("/Applications") == "Applications"
  {
    Paths.DirnameUnderRoot("Applications");
    assert "/Applications" == "/" + "Applications";
  }

  lemma DefaultCoordinates()
    ensures IntToString(130) == "130" && IntToString(410) == "410" && IntToString(220) == "220"
  {
  }

  /** Regrouping a concatenation around a middle value. */
  lemma Regroup(x: string, y: string, a: string, b: string)
    ensures x + (y + a) + b == (x + y) + (a + b)
  {
  }

  lemma AppTail()
    ensures "': (" + IntToString(130) + ", " + IntToString(220) + ")" == "': (130, 220)"
    ensures ".app" + "': (130, 220)" == ".app': (130, 220)"
  {
    DefaultCoordinates();
  }

  lemma LinkItemText()
    ensures "'" + "Applications" + "': (" + IntToString(410) + ", " + IntToString(220) + ")" == "'Applications': (410, 220)"
  {
    DefaultCoordinates();
  }

  lemma EntriesTail()
    ensures ".app': (130, 220)" + ",\n" + "'Applications': (410, 220)" == ".app': (130, 220),\n'Applications': (410, 220)"
  {
  }

  lemma DefaultAppItem(productFilename: string)
    requires productFilename != [] && NoChar(productFilename, '/')
    requires NoChar(productFilename, '\'') && NoChar(productFilename, '\\')
    ensures EntryItem(DEFAULT_CONTENTS[0], productFilename) == "'" + productFilename + ".app': (130, 220)"
  {
    DefaultAppEntryName(productFilename);
    EntryItemParts(DEFAULT_CONTENTS[0], productFilename, productFilename + ".app", "': (" + IntToString(130) + ", " + IntToString(220) + ")");
    AppTail();
    Regroup("'", productFilename, ".app", "': (130, 220)");
  }

  /** An item is its escaped name between a quote and its coordinates. */
  lemma EntryItemParts(c: DmgContent, productFilename: string, name: string, tail: string)
    requires EscapeName(EntryName(c, productFilename)) == name
    requires tail == "': (" + IntToString(c.x) + ", " + IntToString(c.y) + ")"
    ensures EntryItem(c, productFilename) == "'" + name + tail
  {
  }

  lemma DefaultLinkItem(productFilename: string)
    ensures EntryItem(DEFAULT_CONTENTS[1], productFilename) == "'Applications': (410, 220)"
  {
    DefaultLinkEntryName(productFilename);
    var c := DEFAULT_CONTENTS[1];
    assert c.x == 410 && c.y == 220;
    LinkItemText();
  }

  lemma DefaultItems(productFilename: string)
    requires productFilename != [] && NoChar(productFilename, '/')
    requires NoChar(productFilename, '\'') && NoChar(productFilename, '\\')
    ensures EntryItems(DEFAULT_CONTENTS, productFilename)
            == ["'" + productFilename + ".app': (130, 220)", "'Applications': (410, 220)"]
  {
    DefaultAppItem(productFilename);
    DefaultLinkItem(productFilename);
    assert DEFAULT_CONTENTS == [DEFAULT_CONTENTS[0], DEFAULT_CONTENTS[1]];
    EntryItemsPair(DEFAULT_CONTENTS[0], DEFAULT_CONTENTS[1], productFilename);
  }

  /** With the default contents the list names the app and the Applications link. */
  lemma DefaultEntries(productFilename: string)
    requires productFilename != [] && NoChar(productFilename, '/')
    requires NoChar(productFilename, '\'') && NoChar(productFilename, '\\')
    ensures JoinWith(EntryItems(DEFAULT_CONTENTS, productFilename), ",\n")
            == "'" + productFilename + ".app': (130, 220),\n'Applications': (410, 220)"
  {
    DefaultItems(productFilename);
    var items := EntryItems(DEFAULT_CONTENTS, productFilename);
    assert items[1..] == [items[1]];
    assert JoinWith(items, ",\n") == items[0] + ",\n" + items[1];
    EntriesTail();
    var x := "'" + productFilename;
    assert items[0] + ",\n" + items[1] == x + ".app': (130, 220)" + ",\n" + "'Applications': (410, 220)";
    Regroup3(x, ".app': (130, 220)", ",\n", "'Applications': (410, 220)");
  }

  lemma Regroup3(x: string, a: string, b: string, c: string)
    ensures x + a + b + c == x + (a + b + c)
  {
  }

  // ---------------------------------------------------------------------------
  // transformBackgroundFileIfNeed

  predicate IsLowerAscii(c: char) {
    'a' <= c <= 'z'
  }

  /** `\.([a-z]+)$` matches at index `i` of `file`. */
  predicate ExtensionAt(file: string, i: nat) {
    i + 1 < |file| && file[i] == '.' && forall k :: i < k < |file| ==> IsLowerAscii(file[k])
  }

  /**
   * `file.replace(/\.([a-z]+)$/, "@2x.$1")`: "@2x" goes in front of a final lower-case
   * extension; a file without one keeps its name.
   */
  function RetinaName(file: string): (r: string)
    ensures forall i: nat :: ExtensionAt(file, i) ==> r == file[..i] + "@2x" + file[i..]
    ensures (forall i: nat :: !ExtensionAt(file, i)) ==> r == file
  {
    match LastIndexOf(file, '.')
    case None => file
    case Some(d) =>
      if d + 1 < |file| && forall k :: d < k < |file| ==> IsLowerAscii(file[k]) then
        assert ExtensionAt(file, d);
        ExtensionAtIsLastDot(file, d);
        file[..d] + "@2x" + file[d..]
      else
        assert forall i: nat :: !ExtensionAt(file, i) by {
          forall i: nat | ExtensionAt(file, i) ensures false {
            ExtensionAtIsLastDot(file, i);
          }
        }
        file
  }

  /** The only place the extension pattern can match is the last dot. */
  lemma ExtensionAtIsLastDot(file: string, i: nat)
    requires ExtensionAt(file, i)
    ensures LastIndexOf(file, '.') == Some(i)
  {
    match LastIndexOf(file, '.')
    case None =>
    case Some(d) =>
  }

  /** The retina name is the file name with "@2x" inserted, and removing it gives the name back. */
  lemma RetinaNameInsertsMarker(file: string, i: nat)
    requires ExtensionAt(file, i)
    ensures |RetinaName(file)| == |file| + 3
    ensures RetinaName(file)[i..i + 3] == "@2x"
    ensures RetinaName(file)[..i] + RetinaName(file)[i + 3..] == file
  {
    var r := RetinaName(file);
    assert r == file[..i] + "@2x" + file[i..];
    assert r[..i] == file[..i];
    assert r[i + 3..] == file[i..];
  }

  /** The steps transformBackgroundFileIfNeed takes for a background file. */
  datatype BackgroundPlan =
    | KeepBackground(file: string)
    | CombineWithRetina(file: string, retinaFile: string, tiffFile: string)
  {
    /** The background file customizeDmg is given. */
    function Output(): string {
      if KeepBackground? then file else tiffFile
    }
  }

  /**
   * transformBackgroundFileIfNeed: a TIFF is used as it is; otherwise, when the retina
   * variant exists (`retinaExists` answers for RetinaName(file)), both are combined by
   * tiffutil into the temporary `tiffFile`; otherwise the file is used as it is.
   */
  function TransformBackground(file: string, retinaExists: bool, tiffFile: string): (plan: BackgroundPlan)
    ensures EndsWith(file, ".tiff") || EndsWith(file, ".TIFF") ==> plan == KeepBackground(file)
    ensures !(EndsWith(file, ".tiff") || EndsWith(file, ".TIFF")) ==> (plan.CombineWithRetina? <==> retinaExists)
    ensures plan.CombineWithRetina? ==> plan.file == file && plan.retinaFile == RetinaName(file) && plan.tiffFile == tiffFile
    ensures plan.KeepBackground? ==> plan.file == file
    ensures EndsWith(tiffFile, ".tiff") ==> EndsWith(plan.Output(), ".tiff") || plan.Output() == file
  {
    if EndsWith(file, ".tiff") || EndsWith(file, ".TIFF") then KeepBackground(file)
    else if retinaExists then CombineWithRetina(file, RetinaName(file), tiffFile)
    else KeepBackground(file)
  }

  // ---------------------------------------------------------------------------
  // addLogLevel, createStageDmg and the convert step

  /** The default of addLogLevel's `isVerbose`: DEBUG_DMG is exactly "true". */
  function DebugDmgVerbose(debugDmg: Option<string>): bool {
    debugDmg == Some("true")
  }

  function LogLevelFlag(isVerbose: bool): string {
    if isVerbose then "-verbose" else "-quiet"
  }

  /** addLogLevel: pushes the log-level flag onto the given array and returns that same array. */
  method AddLogLevel(args: DmgUtil.ArgList, isVerbose: bool) returns (same: DmgUtil.ArgList)
    modifies args
    ensures same == args
    ensures args.items == old(args.items) + [LogLevelFlag(isVerbose)]
  {
    args.Push(LogLevelFlag(isVerbose));
    return args;
  }

  /**
   * How an hdiutil call ended. Whether a failure is transient is decided by its exit code
   * (hdiuil.ts is not part of this model).
   */
  datatype HdiutilOutcome = Completed | TransientFailure | OtherFailure

  /**
   * createStageDmg: the argument lists of its hdiutil calls and its result, the staging image
   * or the error it rethrows. The log level comes from DEBUG_DMG (`debugDmg`). The array
   * addLogLevel returns is `createArgs` itself, so the retry after a transient failure passes
   * the first attempt's full list with "-verbose" added at the end; any other failure, and
   * any failure of the retry, is rethrown.
   */
  method CreateStageDmg(tempDmg: string, appPath: string, volumeName: string, debugDmg: Option<string>, isDebugEnabled: bool,
                        firstOutcome: HdiutilOutcome, retryOutcome: HdiutilOutcome)
    returns (calls: seq<seq<string>>, result: Result<string, HdiutilOutcome>)
    ensures |calls| == if firstOutcome == TransientFailure then 2 else 1
    ensures calls[0] == ["create", "-srcfolder", appPath, "-volname", volumeName, "-anyowners", "-nospotlight", "-format", "UDRW",
                         LogLevelFlag(DebugDmgVerbose(debugDmg))]
                        + (if isDebugEnabled then ["-debug"] else []) + ["-fs", "APFS", tempDmg]
    ensures firstOutcome == TransientFailure ==> calls[1] == calls[0] + ["-verbose"]
    ensures result.Success? <==> firstOutcome == Completed || (firstOutcome == TransientFailure && retryOutcome == Completed)
    ensures result.Success? ==> result.value == tempDmg
    ensures result.Failure? ==> result.error == (if firstOutcome == TransientFailure then retryOutcome else firstOutcome)
  {
    var createArgs := new DmgUtil.ArgList(["create", "-srcfolder", appPath, "-volname", volumeName, "-anyowners", "-nospotlight", "-format", "UDRW"]);
    var imageArgs := AddLogLevel(createArgs, DebugDmgVerbose(debugDmg));
    if isDebugEnabled {
      imageArgs.Push("-debug");
    }
    imageArgs.Push("-fs");
    imageArgs.Push("APFS");
    imageArgs.Push(tempDmg);
    calls := [imageArgs.items];
    var outcome := firstOutcome;
    if firstOutcome == TransientFailure {
      var retryArgs := AddLogLevel(createArgs, true);
      calls := calls + [retryArgs.items];
      outcome := retryOutcome;
    }
    if outcome == Completed {
      result := Success(tempDmg);
    } else {
      result := Failure(outcome);
    }
  }

  /** The arguments of the final `hdiutil convert` call; UDZO adds the zlib level (default 9). */
  method ConvertArguments(tempDmg: string, format: DmgFormat, artifactPath: string, compressionLevelEnv: Option<string>, debugDmg: Option<string>)
    returns (args: seq<string>)
    ensures |args| == if format == UDZO then 10 else 8
    ensures args[..7] == ["convert", tempDmg, "-ov", "-format", format.Name(), "-o", artifactPath]
    ensures format == UDZO ==> args[7..9] == ["-imagekey", "zlib-level=" + OrElse(compressionLevelEnv, "9")]
    ensures args[|args| - 1] == LogLevelFlag(DebugDmgVerbose(debugDmg))
  {
    var list := new DmgUtil.ArgList(["convert", tempDmg, "-ov", "-format", format.Name(), "-o", artifactPath]);
    if format == UDZO {
      list.Push("-imagekey");
      list.Push("zlib-level=" + OrElse(compressionLevelEnv, "9"));
    }
    var same := AddLogLevel(list, DebugDmgVerbose(debugDmg));
    args := same.items;
  }

  // ---------------------------------------------------------------------------
  // customizeDmg: the layout settings passed to dmgbuild

  /** The layout variables customizeDmg puts in dmgbuild's environment; None means the variable is absent. */
  datatype LayoutEnv = LayoutEnv(
    appFileName: string,
    iconSize: int,
    iconTextSize: int,
    backgroundColor: Option<string>,
    windowX: Option<int>,
    windowY: Option<int>,
    windowWidth: Option<int>,
    windowHeight: Option<int>)

  /** The configured icon text size when it lies in 10..16, else 12. */
  function IconTextSize(configured: Option<int>): (r: int)
    ensures 10 <= r <= 16
    ensures configured.Some? && 10 <= configured.value <= 16 ==> r == configured.value
    ensures configured.None? || configured.value < 10 || configured.value > 16 ==> r == 12
  {
    if configured.Some? && configured.value != 0 && 10 <= configured.value <= 16 then configured.value else 12
  }

  /** `n || d` on an optional number: undefined, null and 0 fall through to the default. */
  function NumberOr(n: Option<int>, d: int): int {
    if n.Some? && n.value != 0 then n.value else d
  }

  /** `n == null ? d : n`: only undefined and null fall through. */
  function NullishOr(n: Option<int>, d: int): int {
    if n.Some? then n.value else d
  }

  /** Math.round(k / 2) for an integer k: the nearest integer, halves rounded up. */
  function HalfRound(k: int): (r: int)
    ensures k <= 2 * r <= k + 1
  {
    (k + 1) / 2
  }

  /**
   * customizeDmg's environment for dmgbuild. The background colour is set (default
   * "#ffffff") when a colour is configured or there is no background picture, and then
   * the window geometry is taken from the configured window with defaults 100, 400, 540
   * and 380; otherwise any inherited colour is removed. When app-builder reports the size
   * of the background picture (`backgroundSize`), the window size becomes the configured
   * one or that size, and a missing position becomes x 400 and y centred on 1440.
   */
  method CustomizeEnvironment(spec: DmgOptions, productFilename: string, backgroundSize: Option<(int, int)>)
    returns (env: LayoutEnv)
    ensures env.appFileName == productFilename + ".app"
    ensures env.iconSize == NumberOr(spec.iconSize, 80)
    ensures env.iconTextSize == IconTextSize(spec.iconTextSize)
    ensures env.backgroundColor.Some? <==> spec.backgroundColor.Some? || spec.background.None?
    ensures env.backgroundColor.Some? ==> env.backgroundColor.value == OrElse(spec.backgroundColor, "#ffffff")
    ensures backgroundSize.None? ==>
              (env.windowX.Some? <==> env.backgroundColor.Some? && spec.window.Some?) &&
              env.windowX.Some? == env.windowY.Some? == env.windowWidth.Some? == env.windowHeight.Some?
    ensures backgroundSize.None? && env.windowX.Some? ==>
              env.windowX.value == NullishOr(spec.window.value.x, 100) && env.windowY.value == NullishOr(spec.window.value.y, 400) &&
              env.windowWidth.value == NumberOr(spec.window.value.width, 540) && env.windowHeight.value == NumberOr(spec.window.value.height, 380)
    ensures backgroundSize.Some? ==>
              env.windowX.Some? && env.windowY.Some? && env.windowWidth.Some? && env.windowHeight.Some?
    ensures backgroundSize.Some? ==>
              env.windowWidth.value == (if spec.window.Some? && spec.window.value.width.Some? then spec.window.value.width.value else backgroundSize.value.0) &&
              env.windowHeight.value == (if spec.window.Some? && spec.window.value.height.Some? then spec.window.value.height.value else backgroundSize.value.1)
    ensures backgroundSize.Some? ==>
              var placed := env.backgroundColor.Some? && spec.window.Some?;
              env.windowX.value == (if placed then NullishOr(spec.window.value.x, 100) else 400) &&
              env.windowY.value == (if placed then NullishOr(spec.window.value.y, 400) else HalfRound(1440 - env.windowHeight.value))
  {
    var window := spec.window;
    env := LayoutEnv(productFilename + ".app", NumberOr(spec.iconSize, 80), IconTextSize(spec.iconTextSize), None, None, None, None, None);

    if spec.backgroundColor.Some? || spec.background.None? {
      env := env.(backgroundColor := Some(OrElse(spec.backgroundColor, "#ffffff")));
      if window.Some? {
        env := env.(windowX := Some(NullishOr(window.value.x, 100)), windowY := Some(NullishOr(window.value.y, 400)));
        env := env.(windowWidth := Some(NumberOr(window.value.width, 540)), windowHeight := Some(NumberOr(window.value.height, 380)));
      }
    } else {
      env := env.(backgroundColor := None);
    }

    if backgroundSize.Some? {
      var (backgroundWidth, backgroundHeight) := backgroundSize.value;
      env := env.(windowWidth := if window.None? then None else window.value.width);
      env := env.(windowHeight := if window.None? then None else window.value.height);
      if env.windowWidth.None? {
        env := env.(windowWidth := Some(backgroundWidth));
      }
      if env.windowHeight.None? {
        env := env.(windowHeight := Some(backgroundHeight));
      }
      if env.windowX.None? {
        env := env.(windowX := Some(400));
      }
      if env.windowY.None? {
        env := env.(windowY := Some(HalfRound(1440 - env.windowHeight.value)));
      }
    }
  }
}
