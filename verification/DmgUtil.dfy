/**
 * Helpers of the DMG target (packages/dmg-builder/src/dmgUtil.ts): the hdiutil argument
 * list built in place, the device parsed from `hdiutil attach` output, the choice of the
 * default background picture and the resource-file serialisation of a string.
 */
module DmgUtil {
  import opened Support
  import Paths

  /** A JavaScript array of command arguments, grown in place by `push`. */
  class ArgList {
    var items: seq<string>

    constructor (initial: seq<string>)
      ensures items == initial
    {
      items := initial;
    }

    method Push(arg: string)
      modifies this
      ensures items == old(items) + [arg]
    {
      items := items + [arg];
    }
  }

  // ---------------------------------------------------------------------------
  // attachAndExecute

  /** The arguments of `hdiutil attach`: three fixed flags, "-readwrite" on request, then the image. */
  function AttachArguments(dmgPath: string, readWrite: bool): (args: seq<string>)
    ensures |args| == if readWrite then 5 else 4
    ensures args[..3] == ["attach", "-noverify", "-noautoopen"]
    ensures readWrite ==> args[3] == "-readwrite"
    ensures args[|args| - 1] == dmgPath
  {
    ["attach", "-noverify", "-noautoopen"] + (if readWrite then ["-readwrite"] else []) + [dmgPath]
  }

  /** The `\w` class of a JavaScript regular expression. */
  predicate IsWordChar(c: char) {
    'a' <= c <= 'z' || 'A' <= c <= 'Z' || '0' <= c <= '9' || c == '_'
  }

  /** End of the run of word characters that starts at `i`. */
  function WordRunEnd(s: string, i: nat): (k: nat)
    requires i <= |s|
    ensures i <= k <= |s|
    ensures forall j :: i <= j < k ==> IsWordChar(s[j])
    ensures k < |s| ==> !IsWordChar(s[k])
    decreases |s| - i
  {
    if i < |s| && IsWordChar(s[i]) then WordRunEnd(s, i + 1) else i
  }

  /** "Cannot mount: <output>": the attach output held no device name. */
  datatype MountError = CannotMount(output: Option<string>)

  /**
   * The device of `/^(\/dev\/\w+)/.exec(output)`: "/dev/" and the longest run of word
   * characters after it, at the very start of the output; missing output or no match
   * is a mount error.
   */
  function ParseDevice(output: Option<string>): (r: Result<string, MountError>)
    ensures r.Success? <==>
              output.Some? && StartsWith(output.value, "/dev/") && |output.value| > 5 && IsWordChar(output.value[5])
    ensures r.Success? ==>
              StartsWith(output.value, r.value) && StartsWith(r.value, "/dev/") && |r.value| > 5 &&
              (forall j :: 5 <= j < |r.value| ==> IsWordChar(r.value[j])) &&
              (|r.value| < |output.value| ==> !IsWordChar(output.value[|r.value|]))
    ensures r.Failure? ==> r.error == CannotMount(output)
  {
    if output.Some? && StartsWith(output.value, "/dev/") && |output.value| > 5 && IsWordChar(output.value[5]) then
      var s := output.value;
      var k := WordRunEnd(s, 5);
      assert s[..k][..5] == s[..5];
      Success(s[..k])
    else
      Failure(CannotMount(output))
  }

  /**
   * attachAndExecute up to the mount: the argument list is grown in place, and the device
   * is read from what hdiutil printed for it (`attachOutput`).
   */
  method AttachAndExecute(dmgPath: string, readWrite: bool, attachOutput: Option<string>)
    returns (args: ArgList, device: Result<string, MountError>)
    ensures fresh(args)
    ensures args.items == AttachArguments(dmgPath, readWrite)
    ensures device == ParseDevice(attachOutput)
  {
    args := new ArgList(["attach", "-noverify", "-noautoopen"]);
    if readWrite {
      args.Push("-readwrite");
    }
    args.Push(dmgPath);
    device := ParseDevice(attachOutput);
  }

  // ---------------------------------------------------------------------------
  // computeBackground

  /**
   * The default DMG background: background.tiff from the build resources, else
   * background.png from there, else the bundled template background.tiff.
   */
  function ComputeBackground(resourceList: seq<string>, buildResourcesDir: string, templateDir: string): (r: string)
    ensures "background.tiff" in resourceList ==> r == Paths.JoinPath(buildResourcesDir, "background.tiff")
    ensures "background.tiff" !in resourceList && "background.png" in resourceList ==>
              r == Paths.JoinPath(buildResourcesDir, "background.png")
    ensures "background.tiff" !in resourceList && "background.png" !in resourceList ==>
              r == Paths.JoinPath(templateDir, "background.tiff")
    ensures Paths.Basename(r) == "background.png" ==> "background.png" in resourceList && "background.tiff" !in resourceList
    ensures Paths.Basename(r) in {"background.tiff", "background.png"}
  {
    if "background.tiff" in resourceList then
      Paths.BasenameOfJoin(buildResourcesDir, "background.tiff");
      Paths.JoinPath(buildResourcesDir, "background.tiff")
    else if "background.png" in resourceList then
      Paths.BasenameOfJoin(buildResourcesDir, "background.png");
      Paths.JoinPath(buildResourcesDir, "background.png")
    else
      Paths.BasenameOfJoin(templateDir, "background.tiff");
      Paths.JoinPath(templateDir, "background.tiff")
  }

  // ---------------------------------------------------------------------------
  // serializeString

  /** The characters `.` does not match in a JavaScript regular expression. */
  predicate IsLineTerminator(c: char) {
    c == '\n' || c == '\r' || c == '\U{2028}' || c == '\U{2029}'
  }

  predicate NoTerminator(s: string) {
    forall i :: 0 <= i < |s| ==> !IsLineTerminator(s[i])
  }

  /** How many leading characters `.{1,n}` takes: up to `n`, stopping at a line terminator. */
  function RunLength(s: string, n: nat): (k: nat)
    ensures k <= n && k <= |s|
    ensures NoTerminator(s[..k])
    ensures k < n && k < |s| ==> IsLineTerminator(s[k])
  {
    if n == 0 || s == [] || IsLineTerminator(s[0]) then 0
    else
      var k := 1 + RunLength(s[1..], n - 1);
      assert s[..k] == [s[0]] + s[1..][..k - 1];
      k
  }

  /**
   * `s.match(/.{1,n}/g)`, the empty list standing for JavaScript's null: greedy pieces of
   * at most `n` characters; line terminators are skipped and split pieces.
   */
  function MatchAll(s: string, n: nat): (pieces: seq<string>)
    requires n > 0
    ensures forall i :: 0 <= i < |pieces| ==> 0 < |pieces[i]| <= n && NoTerminator(pieces[i])
    decreases |s|
  {
    if s == [] then []
    else if IsLineTerminator(s[0]) then MatchAll(s[1..], n)
    else
      var k := RunLength(s, n);
      [s[..k]] + MatchAll(s[k..], n)
  }

  /** `s` with its line terminators removed. */
  function DropTerminators(s: string): (r: string)
    ensures NoTerminator(r)
  {
    if s == [] then [] else (if IsLineTerminator(s[0]) then [] else [s[0]]) + DropTerminators(s[1..])
  }

  lemma {:induction false} DropTerminatorsAppend(a: string, b: string)
    ensures DropTerminators(a + b) == DropTerminators(a) + DropTerminators(b)
    decreases |a|
  {
    if a == [] {
      assert a + b == b;
    } else {
      assert (a + b)[1..] == a[1..] + b;
      DropTerminatorsAppend(a[1..], b);
    }
  }

  lemma {:induction false} DropTerminatorsPlain(s: string)
    requires NoTerminator(s)
    ensures DropTerminators(s) == s
    decreases |s|
  {
    if s != [] {
      DropTerminatorsPlain(s[1..]);
    }
  }

  /** The global match keeps every character except the line terminators, in order. */
  lemma {:induction false} MatchAllKeepsText(s: string, n: nat)
    requires n > 0
    ensures Concat(MatchAll(s, n)) == DropTerminators(s)
    decreases |s|
  {
    if s != [] {
      if IsLineTerminator(s[0]) {
        MatchAllKeepsText(s[1..], n);
      } else {
        var k := RunLength(s, n);
        assert s == s[..k] + s[k..];
        MatchAllKeepsText(s[k..], n);
        DropTerminatorsAppend(s[..k], s[k..]);
        DropTerminatorsPlain(s[..k]);
      }
    }
  }

  /** The match is null exactly when every character is a line terminator. */
  lemma {:induction false} MatchAllEmpty(s: string, n: nat)
    requires n > 0
    ensures MatchAll(s, n) == [] <==> NoNonTerminator(s)
    decreases |s|
  {
    if s != [] {
      if IsLineTerminator(s[0]) {
        MatchAllEmpty(s[1..], n);
        assert NoNonTerminator(s) <==> NoNonTerminator(s[1..]) by {
          if NoNonTerminator(s[1..]) {
            forall i | 0 <= i < |s| ensures IsLineTerminator(s[i]) {
              if i > 0 { assert s[i] == s[1..][i - 1]; }
            }
          }
        }
      }
    }
  }

  predicate NoNonTerminator(s: string) {
    forall i :: 0 <= i < |s| ==> IsLineTerminator(s[i])
  }

  /** On text without line terminators the first piece is as long as it can be. */
  lemma FirstPiecePlain(s: string, n: nat)
    requires n > 0 && NoTerminator(s) && s != []
    ensures RunLength(s, n) == if |s| <= n then |s| else n
    ensures MatchAll(s, n) == [s[..RunLength(s, n)]] + MatchAll(s[RunLength(s, n)..], n)
  {
  }

  lemma MulStep(c: int, n: int)
    ensures (c + 1) * n == c * n + n
  {
  }

  /**
   * Text without line terminators is cut into consecutive pieces of exactly `n`
   * characters, the last one possibly shorter, and nothing is lost.
   */
  lemma {:induction false} MatchAllPlain(s: string, n: nat)
    requires n > 0 && NoTerminator(s)
    ensures Concat(MatchAll(s, n)) == s
    ensures forall i :: 0 <= i < |MatchAll(s, n)| - 1 ==> |MatchAll(s, n)[i]| == n
    decreases |s|
  {
    MatchAllKeepsText(s, n);
    DropTerminatorsPlain(s);
    if s != [] {
      FirstPiecePlain(s, n);
      var k := RunLength(s, n);
      var rest := MatchAll(s[k..], n);
      MatchAllPlain(s[k..], n);
      var pieces := MatchAll(s, n);
      forall i | 0 <= i < |pieces| - 1 ensures |pieces[i]| == n {
        if i > 0 {
          assert pieces[i] == rest[i - 1];
        }
      }
    }
  }

  /** There are ceil(|s| / n) pieces of text without line terminators. */
  lemma {:induction false} MatchAllCount(s: string, n: nat)
    requires n > 0 && NoTerminator(s)
    ensures (|MatchAll(s, n)| - 1) * n < |s| <= |MatchAll(s, n)| * n
    decreases |s|
  {
    if s != [] {
      FirstPiecePlain(s, n);
      var k := RunLength(s, n);
      var c := |MatchAll(s[k..], n)|;
      MatchAllCount(s[k..], n);
      assert |MatchAll(s, n)| == c + 1;
      MulStep(c, n);
      MulStep(c - 1, n);
    }
  }

  const LINE_PREFIX := "  $\""
  const LINE_SEPARATOR := "\"\n  $\""

  /** One output line: the piece in groups of four characters separated by single spaces. */
  function GroupLine(chunk: string): string {
    JoinWith(MatchAll(chunk, 4), " ")
  }

  function GroupLines(chunks: seq<string>): (lines: seq<string>)
    ensures |lines| == |chunks|
  {
    if chunks == [] then [] else [GroupLine(chunks[0])] + GroupLines(chunks[1..])
  }

  /**
   * serializeString: `  $"` + the 32-character pieces, each grouped by four, joined by
   * `"` newline `  $"` + `"`. The non-null assertion on the match demands a matchable character.
   */
  function SerializeString(data: string): (r: string)
    requires MatchAll(data, 32) != []
    ensures StartsWith(r, LINE_PREFIX) && EndsWith(r, "\"") && |r| > |LINE_PREFIX|
  {
    var r := LINE_PREFIX + JoinWith(GroupLines(MatchAll(data, 32)), LINE_SEPARATOR) + "\"";
    assert r[..|LINE_PREFIX|] == LINE_PREFIX;
    r
  }

  /** Undo the serialisation: strip the framing, drop the line separators, then drop the spaces. */
  function Deserialize(r: string): string
    requires |r| > |LINE_PREFIX|
  {
    RemoveChar(ReplaceAll(r[|LINE_PREFIX|..|r| - 1], LINE_SEPARATOR, ""), ' ')
  }

  lemma {:induction false} JoinWithNoChar(items: seq<string>, sep: string, c: char)
    requires forall i :: 0 <= i < |items| ==> NoChar(items[i], c)
    requires NoChar(sep, c)
    ensures NoChar(JoinWith(items, sep), c)
    decreases |items|
  {
    if |items| > 1 {
      JoinWithNoChar(items[1..], sep, c);
    }
  }

  lemma {:induction false} ConcatNoChar(items: seq<string>, c: char)
    requires NoChar(Concat(items), c)
    ensures forall i :: 0 <= i < |items| ==> NoChar(items[i], c)
    decreases |items|
  {
    if items != [] {
      NoCharAppend(items[0], Concat(items[1..]), c);
      ConcatNoChar(items[1..], c);
      forall i | 0 < i < |items| ensures NoChar(items[i], c) {
        assert items[i] == items[1..][i - 1];
      }
    }
  }

  /** Removing the separator character from a join of items without it concatenates them. */
  lemma {:induction false} RemoveCharJoin(items: seq<string>, c: char)
    requires forall i :: 0 <= i < |items| ==> NoChar(items[i], c)
    ensures RemoveChar(JoinWith(items, [c]), c) == Concat(items)
    decreases |items|
  {
    if items == [] {
    } else if |items| == 1 {
      RemoveCharAbsent(items[0], c);
      assert Concat(items[1..]) == [];
    } else {
      RemoveCharJoin(items[1..], c);
      RemoveCharAppend(items[0] + [c], JoinWith(items[1..], [c]), c);
      RemoveCharAppend(items[0], [c], c);
      RemoveCharAbsent(items[0], c);
    }
  }

  /** Deleting every line separator from the joined lines concatenates them. */
  lemma {:induction false} DropSeparators(lines: seq<string>)
    requires forall i :: 0 <= i < |lines| ==> NoChar(lines[i], '\n')
    ensures ReplaceAll(JoinWith(lines, LINE_SEPARATOR), LINE_SEPARATOR, "") == Concat(lines)
    decreases |lines|
  {
    if lines == [] {
    } else if |lines| == 1 {
      ReplaceAllNoMatch(lines[0], LINE_SEPARATOR, "", 1);
      assert Concat(lines[1..]) == [];
    } else {
      var tail := JoinWith(lines[1..], LINE_SEPARATOR);
      var rest := LINE_SEPARATOR + tail;
      assert JoinWith(lines, LINE_SEPARATOR) == lines[0] + rest;
      assert LINE_SEPARATOR[1] == '\n' && rest[0] == '"';
      ReplaceAllKeepsPrefix(lines[0], rest, LINE_SEPARATOR, "", 1);
      ReplaceAllAtStart(LINE_SEPARATOR, tail, "");
      DropSeparators(lines[1..]);
      assert ReplaceAll(rest, LINE_SEPARATOR, "") == Concat(lines[1..]);
    }
  }

  /** Pieces without spaces or line terminators, grouped and then stripped of spaces, concatenate back. */
  lemma {:induction false} UngroupLines(chunks: seq<string>)
    requires forall i :: 0 <= i < |chunks| ==> NoTerminator(chunks[i]) && NoChar(chunks[i], ' ')
    ensures RemoveChar(Concat(GroupLines(chunks)), ' ') == Concat(chunks)
    ensures forall i :: 0 <= i < |chunks| ==> NoChar(GroupLines(chunks)[i], '\n')
    decreases |chunks|
  {
    if chunks != [] {
      var c := chunks[0];
      var groups := MatchAll(c, 4);
      MatchAllPlain(c, 4);
      ConcatNoChar(groups, ' ');
      RemoveCharJoin(groups, ' ');
      forall i | 0 <= i < |groups| ensures NoChar(groups[i], '\n') {
        assert NoTerminator(groups[i]);
      }
      JoinWithNoChar(groups, " ", '\n');
      UngroupLines(chunks[1..]);
      RemoveCharAppend(GroupLine(c), Concat(GroupLines(chunks[1..])), ' ');
      forall i | 0 < i < |chunks| ensures NoChar(GroupLines(chunks)[i], '\n') {
        assert GroupLines(chunks)[i] == GroupLines(chunks[1..])[i - 1];
      }
    }
  }

  /**
   * Round trip: for non-empty data without spaces or line terminators, stripping the
   * framing, the line separators and the group spaces from the serialisation gives the data back.
   */
  lemma SerializeRoundTrip(data: string)
    requires data != [] && NoTerminator(data) && NoChar(data, ' ')
    ensures MatchAll(data, 32) != []
    ensures Deserialize(SerializeString(data)) == data
  {
    MatchAllEmpty(data, 32);
    assert !IsLineTerminator(data[0]);
    var chunks := MatchAll(data, 32);
    MatchAllPlain(data, 32);
    ConcatNoChar(chunks, ' ');
    UngroupLines(chunks);
    var body := JoinWith(GroupLines(chunks), LINE_SEPARATOR);
    var r := SerializeString(data);
    assert r[|LINE_PREFIX|..|r| - 1] == body;
    DropSeparators(GroupLines(chunks));
  }

  /** Layout: every output line holds 32 characters of the data, except possibly the last. */
  lemma SerializeLayout(data: string)
    requires data != [] && NoTerminator(data)
    ensures MatchAll(data, 32) != []
    ensures var lines := MatchAll(data, 32);
              Concat(lines) == data &&
              (|lines| - 1) * 32 < |data| <= |lines| * 32 &&
              (forall i :: 0 <= i < |lines| - 1 ==> |lines[i]| == 32) &&
              forall i :: 0 <= i < |lines| ==> 0 < |lines[i]| <= 32
  {
    MatchAllEmpty(data, 32);
    assert !IsLineTerminator(data[0]);
    MatchAllPlain(data, 32);
    MatchAllCount(data, 32);
  }
}
