/**
 * The patch text parser of lib/graph/patch-parser.ts: raw patch text is
 * normalised into lines, the lines are grouped under `[name]` headers, the
 * leading one-line groups become controllers and the other groups become
 * circuits whose `name=value` lines are parsed into tagged values.
 */
module PatchParser {
  import opened Common
  import opened JsString

  /** One value reference on the right of `=`; `text` is the token as written (after clean-up). */
  datatype Value =
    | Pot(text: string, controller: Option<int>, index: Option<int>)
    | Button(text: string, controller: Option<int>, index: Option<int>)
    | Led(text: string, controller: Option<int>, index: Option<int>)
    | Output(text: string, index: Option<int>)
    | Input(text: string, index: Option<int>)
    | InputNormalized(text: string, index: Option<int>)
    | Voltage(text: string, index: Option<int>)
    | Number(text: string)
    | Variable(text: string)
  {
    /** The `primitive` flag: true for the two literal kinds only. */
    predicate IsPrimitive() { Voltage? || Number? }
  }

  /** A parameter value: one leaf, or an expression with its flat list of operands. */
  datatype ParamValue =
    | Leaf(value: Value)
    | Expression(text: string, operands: seq<Value>)

  datatype Param = Param(name: string, value: ParamValue)

  datatype Circuit = Circuit(name: string, params: seq<Param>)

  /** A controller record: its name, its 1-based position and `parseInt` of the name without `p2b`. */
  datatype Controller = Controller(name: string, index: nat, count: Option<int>)

  datatype Patch = Patch(circuits: seq<Circuit>, controllers: seq<Controller>)

  /** The two ways parsing throws a TypeError. */
  datatype ParseError =
    | TextBeforeHeader(line: string)   // a line before the first `[` header: no group to push to
    | ParamWithoutValue(line: string)  // a parameter line without `=`: its value is undefined

  // ----- normalisation (patch-parser.ts:90-93) -----

  /** The rest of a line after a `#`: everything up to the next line terminator. */
  function SkipToLineEnd(s: string): (r: string)
    ensures |r| <= |s| && r == s[|s| - |r|..]
    decreases |s|
  {
    if s == [] || IsLineTerminator(s[0]) then s else SkipToLineEnd(s[1..])
  }

  /** Comment removal: every `#` and the rest of its line are removed. */
  function StripComments(s: string): (r: string)
    ensures '#' !in r
    ensures forall i :: 0 <= i < |r| ==> r[i] in s
    decreases |s|
  {
    if s == [] then []
    else if s[0] == '#' then StripComments(SkipToLineEnd(s[1..]))
    else [s[0]] + StripComments(s[1..])
  }

  lemma {:induction false} StripCommentsNoHash(s: string)
    requires '#' !in s
    ensures StripComments(s) == s
    decreases |s|
  {
    if s != [] {
      StripCommentsNoHash(s[1..]);
      assert [s[0]] + s[1..] == s;
    }
  }

  /** A comment runs to the line terminator that ends it, which is kept. */
  lemma {:induction false} SkipToLineEndOf(c: string, d: string)
    requires forall i :: 0 <= i < |c| ==> !IsLineTerminator(c[i])
    requires d == [] || IsLineTerminator(d[0])
    ensures SkipToLineEnd(c + d) == d
    decreases |c|
  {
    if c == [] {
      assert c + d == d;
    } else {
      assert (c + d)[1..] == c[1..] + d;
      SkipToLineEndOf(c[1..], d);
    }
  }

  /** Text before the first `#` is kept as it is. */
  lemma {:induction false} StripCommentsKeepsPrefix(a: string, d: string)
    requires '#' !in a
    ensures StripComments(a + d) == a + StripComments(d)
    decreases |a|
  {
    if a == [] {
      assert a + d == d;
    } else {
      NoHashSplit(a);
      StripCommentsKeepsPrefix(a[1..], d);
      StripCommentsStep(a, d, StripComments(d));
    }
  }

  lemma NoHashSplit(a: string)
    requires '#' !in a && a != []
    ensures a[0] != '#' && '#' !in a[1..]
  {
    assert forall i :: 0 <= i < |a[1..]| ==> a[1..][i] == a[i + 1];
  }

  lemma StripCommentsStep(a: string, d: string, kept: string)
    requires a != [] && a[0] != '#'
    requires StripComments(a[1..] + d) == a[1..] + kept
    ensures StripComments(a + d) == a + kept
  {
    assert a + d == [a[0]] + (a[1..] + d);
    StripCommentsCons(a[0], a[1..] + d);
    assert [a[0]] + (a[1..] + kept) == a + kept;
  }

  /** A character other than `#` at the front is kept. */
  lemma StripCommentsCons(c: char, t: string)
    requires c != '#'
    ensures StripComments([c] + t) == [c] + StripComments(t)
  {
    assert ([c] + t)[1..] == t;
  }

  /**
   * A `#` removes itself and the rest of its line, up to the line terminator,
   * and no more: the text before it and the text from the terminator on are kept.
   */
  lemma StripCommentsLine(a: string, c: string, d: string)
    requires '#' !in a
    requires forall i :: 0 <= i < |c| ==> !IsLineTerminator(c[i])
    requires d == [] || IsLineTerminator(d[0])
    ensures StripComments(a + "#" + c + d) == a + StripComments(d)
  {
    assert a + "#" + c + d == a + ("#" + (c + d));
    StripCommentsKeepsPrefix(a, "#" + (c + d));
    assert ("#" + (c + d))[1..] == c + d;
    SkipToLineEndOf(c, d);
  }

  predicate NotCarriageReturn(c: char) { c != '\r' }

  predicate NotWhitespace(c: char) { !IsWhitespace(c) }

  predicate NotParen(c: char) { c != '(' && c != ')' }

  predicate NotNewline(c: char) { c != '\n' }

  /** `replace(/\n+/g, '\n')`: every run of newlines becomes one. */
  function CollapseNewlines(s: string): (r: string)
    ensures forall i :: 0 <= i < |r| ==> r[i] in s
    ensures s != [] ==> r != [] && r[0] == s[0]
    ensures NoBlankLine(r)
    decreases |s|
  {
    if s == [] then []
    else if |s| >= 2 && s[0] == '\n' && s[1] == '\n' then CollapseNewlines(s[1..])
    else [s[0]] + CollapseNewlines(s[1..])
  }

  predicate NoBlankLine(s: string) {
    forall i :: 0 <= i < |s| - 1 ==> !(s[i] == '\n' && s[i + 1] == '\n')
  }

  /** Only newlines are removed: every other character is kept, in order. */
  lemma {:induction false} CollapseNewlinesKeepsText(s: string)
    ensures Filter(CollapseNewlines(s), NotNewline) == Filter(s, NotNewline)
    decreases |s|
  {
    if s != [] {
      CollapseNewlinesKeepsText(s[1..]);
      assert s == [s[0]] + s[1..];
      FilterAppend([s[0]], s[1..], NotNewline);
      FilterOne(s[0], NotNewline);
      if !(|s| >= 2 && s[0] == '\n' && s[1] == '\n') {
        FilterAppend([s[0]], CollapseNewlines(s[1..]), NotNewline);
      }
    }
  }

  lemma {:induction false} CollapseNewlinesKeeps(s: string)
    requires NoBlankLine(s)
    ensures CollapseNewlines(s) == s
    decreases |s|
  {
    if s != [] {
      assert NoBlankLine(s[1..]) by {
        forall i | 0 <= i < |s[1..]| - 1 ensures !(s[1..][i] == '\n' && s[1..][i + 1] == '\n') {
          assert s[1..][i] == s[i + 1] && s[1..][i + 1] == s[i + 2];
        }
      }
      CollapseNewlinesKeeps(s[1..]);
      assert [s[0]] + s[1..] == s;
    }
  }

  /** The lines with all white space removed (`x.replace(/\s+/g, '')`). */
  function StripAll(pieces: seq<string>): (r: seq<string>)
    ensures |r| == |pieces|
    ensures forall k, i :: 0 <= k < |r| && 0 <= i < |r[k]| ==> NotWhitespace(r[k][i]) && r[k][i] in pieces[k]
    ensures forall k, i :: 0 <= k < |pieces| && 0 <= i < |pieces[k]| && NotWhitespace(pieces[k][i]) ==> pieces[k][i] in r[k]
    ensures forall k :: 0 <= k < |r| && NoWhitespace(pieces[k]) ==> r[k] == pieces[k]
  {
    seq(|pieces|, k requires 0 <= k < |pieces| => Filter(pieces[k], NotWhitespace))
  }

  /** Whitespace removal works character by character: over a piece cut in two it keeps both halves' characters, in order. */
  lemma StripAllAppend(a: string, b: string)
    ensures StripAll([a + b]) == [StripAll([a])[0] + StripAll([b])[0]]
  {
    FilterAppend(a, b, NotWhitespace);
  }

  /** One character is kept exactly when it is not whitespace. */
  lemma StripAllOne(c: char)
    ensures StripAll([[c]]) == [if NotWhitespace(c) then [c] else []]
  {
    FilterOne(c, NotWhitespace);
  }

  predicate NoWhitespace(s: string) { forall i :: 0 <= i < |s| ==> NotWhitespace(s[i]) }

  /** `filter(x => x.length > 0)`. */
  function NonEmpty(lines: seq<string>): (r: seq<string>)
    ensures forall k :: 0 <= k < |r| ==> |r[k]| > 0 && r[k] in lines
    ensures forall k :: 0 <= k < |lines| && |lines[k]| > 0 ==> lines[k] in r
    decreases |lines|
  {
    if lines == [] then []
    else if |lines[0]| > 0 then [lines[0]] + NonEmpty(lines[1..])
    else NonEmpty(lines[1..])
  }

  /** The filter works line by line: a concatenation keeps the kept lines of each part, in order. */
  lemma {:induction false} NonEmptyAppend(a: seq<string>, b: seq<string>)
    ensures NonEmpty(a + b) == NonEmpty(a) + NonEmpty(b)
    decreases |a|
  {
    if a == [] {
      assert a + b == b;
    } else {
      assert (a + b)[0] == a[0] && (a + b)[1..] == a[1..] + b;
      NonEmptyAppend(a[1..], b);
    }
  }

  /** The normalised lines of a patch text. */
  function Lines(text: string): seq<string> {
    var noComments := StripComments(text);
    var noCr := Filter(noComments, NotCarriageReturn);
    var collapsed := CollapseNewlines(noCr);
    NonEmpty(StripAll(SplitOn(collapsed, {'\n'})))
  }

  /** What every normalised line is: non-empty, no white space (so no `\r`), no `#`. */
  predicate NormalLine(l: string) {
    |l| > 0 && forall i :: 0 <= i < |l| ==> !IsWhitespace(l[i]) && l[i] != '#'
  }

  /** Pieces without `#`, stripped of white space and with the empty ones dropped, are normal lines. */
  lemma NormalPieces(pieces: seq<string>)
    requires forall k :: 0 <= k < |pieces| ==> '#' !in pieces[k]
    ensures forall k :: 0 <= k < |NonEmpty(StripAll(pieces))| ==> NormalLine(NonEmpty(StripAll(pieces))[k])
  {
    var stripped := StripAll(pieces);
    forall k, i | 0 <= k < |stripped| && 0 <= i < |stripped[k]|
      ensures NotWhitespace(stripped[k][i]) && stripped[k][i] != '#'
    {
      assert stripped[k][i] in pieces[k];
    }
    var r := NonEmpty(stripped);
    forall k | 0 <= k < |r| ensures NormalLine(r[k]) {
      var j :| 0 <= j < |stripped| && stripped[j] == r[k];
    }
  }

  /** After normalisation no line is empty, none holds white space and none holds a comment. */
  lemma LinesAreNormal(text: string)
    ensures forall k :: 0 <= k < |Lines(text)| ==> NormalLine(Lines(text)[k])
  {
    var noComments := StripComments(text);
    var noCr := Filter(noComments, NotCarriageReturn);
    var collapsed := CollapseNewlines(noCr);
    var pieces := SplitOn(collapsed, {'\n'});
    assert Lines(text) == NonEmpty(StripAll(pieces));
    assert '#' !in noCr;
    assert '#' !in collapsed;
    forall k | 0 <= k < |pieces| ensures '#' !in pieces[k] {
      assert forall i :: 0 <= i < |pieces[k]| ==> pieces[k][i] in collapsed;
    }
    NormalPieces(pieces);
  }


  lemma {:induction false} JoinAvoids(pieces: seq<string>, sep: char, c: char)
    requires c != sep
    requires forall k :: 0 <= k < |pieces| ==> c !in pieces[k]
    ensures c !in Join(pieces, sep)
    decreases |pieces|
  {
    if |pieces| > 1 {
      JoinAvoids(pieces[1..], sep, c);
    }
  }

  lemma {:induction false} JoinHasNoBlankLine(lines: seq<string>)
    requires forall k :: 0 <= k < |lines| ==> NormalLine(lines[k])
    ensures NoBlankLine(Join(lines, '\n'))
    ensures |lines| > 0 ==> |lines[0]| > 0 && |Join(lines, '\n')| > 0 && Join(lines, '\n')[0] == lines[0][0]
    decreases |lines|
  {
    if |lines| > 1 {
      JoinHasNoBlankLine(lines[1..]);
      var a, b := lines[0], Join(lines[1..], '\n');
      var s := a + ['\n'] + b;
      assert Join(lines, '\n') == s;
      assert !IsWhitespace(a[|a| - 1]) && !IsWhitespace(b[0]);
      forall i | 0 <= i < |s| - 1 ensures !(s[i] == '\n' && s[i + 1] == '\n') {
        if i < |a| {
          assert s[i] == a[i];
        } else if i > |a| {
          assert s[i] == b[i - |a| - 1] && s[i + 1] == b[i - |a|];
        }
      }
    } else if |lines| == 1 {
      assert forall i :: 0 <= i < |lines[0]| ==> lines[0][i] != '\n';
    }
  }

  lemma {:induction false} NonEmptyKeeps(lines: seq<string>)
    requires forall k :: 0 <= k < |lines| ==> |lines[k]| > 0
    ensures NonEmpty(lines) == lines
    decreases |lines|
  {
    if lines != [] {
      NonEmptyKeeps(lines[1..]);
    }
  }

  /** Text without comments, carriage returns or blank lines is only split, stripped and filtered. */
  lemma LinesOfPlainText(text: string)
    requires '#' !in text && '\r' !in text && NoBlankLine(text)
    ensures Lines(text) == NonEmpty(StripAll(SplitOn(text, {'\n'})))
  {
    StripCommentsNoHash(text);
    assert forall i :: 0 <= i < |text| ==> NotCarriageReturn(text[i]);
    CollapseNewlinesKeeps(text);
  }

  lemma StripAllKeeps(lines: seq<string>)
    requires forall k :: 0 <= k < |lines| ==> NormalLine(lines[k])
    ensures StripAll(lines) == lines
  {
    assert forall k :: 0 <= k < |lines| ==> NoWhitespace(lines[k]);
  }

  /** Normal lines joined by newlines make a text without comments, `\r` or blank lines. */
  lemma JoinIsPlain(lines: seq<string>)
    requires forall k :: 0 <= k < |lines| ==> NormalLine(lines[k])
    ensures var text := Join(lines, '\n');
      '#' !in text && '\r' !in text && NoBlankLine(text)
    ensures forall k :: 0 <= k < |lines| ==> '\n' !in lines[k]
  {
    forall k | 0 <= k < |lines| ensures '#' !in lines[k] && '\r' !in lines[k] && '\n' !in lines[k] {
      assert forall i :: 0 <= i < |lines[k]| ==> lines[k][i] != '\r' && lines[k][i] != '\n';
    }
    JoinAvoids(lines, '\n', '#');
    JoinAvoids(lines, '\n', '\r');
    JoinHasNoBlankLine(lines);
  }

  /** Normalising lines that are already normal, joined by newlines, gives them back. */
  lemma LinesOfJoin(lines: seq<string>)
    requires forall k :: 0 <= k < |lines| ==> NormalLine(lines[k])
    ensures Lines(Join(lines, '\n')) == lines
  {
    var text := Join(lines, '\n');
    JoinIsPlain(lines);
    LinesOfPlainText(text);
    if lines == [] {
      assert text == [];
      assert SplitOn(text, {'\n'}) == [""];
    } else {
      SplitJoin(lines, '\n');
      StripAllKeeps(lines);
      NonEmptyKeeps(lines);
    }
  }


  // ----- grouping (patch-parser.ts:95-105) -----

  predicate IsHeader(line: string) { StartsWith(line, '[') }

  /** The lines of the groups, in order. */
  function Flatten(groups: seq<seq<string>>): seq<string>
    decreases |groups|
  {
    if groups == [] then [] else Flatten(groups[..|groups| - 1]) + groups[|groups| - 1]
  }

  /** A group is its header followed by the lines that are not headers. */
  predicate GroupShape(g: seq<string>) {
    |g| >= 1 && IsHeader(g[0]) && forall k :: 1 <= k < |g| ==> !IsHeader(g[k])
  }

  predicate WellGrouped(groups: seq<seq<string>>) {
    forall j :: 0 <= j < |groups| ==> GroupShape(groups[j])
  }

  /**
   * The loop over the lines: a header opens a new group, any other line is
   * pushed onto the last group, and a line with no group before it throws.
   */
  method GroupLines(lines: seq<string>) returns (r: Result<seq<seq<string>>, ParseError>)
    ensures r.Err? <==> |lines| > 0 && !IsHeader(lines[0])
    ensures r.Err? ==> r.error == TextBeforeHeader(lines[0])
    ensures r.Ok? ==> Flatten(r.value) == lines && WellGrouped(r.value)
  {
    var lineGroups: seq<seq<string>> := [];
    for i := 0 to |lines|
      invariant Flatten(lineGroups) == lines[..i]
      invariant WellGrouped(lineGroups)
      invariant (i == 0) == (lineGroups == [])
      invariant i > 0 ==> IsHeader(lines[0])
    {
      var line := lines[i];
      if IsHeader(line) {
        OpenGroup(lineGroups, line);
        lineGroups := lineGroups + [[line]];
      } else {
        if lineGroups == [] {
          return Err(TextBeforeHeader(line));
        }
        var last := |lineGroups| - 1;
        var lineGroup := lineGroups[last] + [line];
        ExtendGroup(lineGroups, line);
        lineGroups := lineGroups[..last] + [lineGroup];
      }
      assert lines[..i + 1] == lines[..i] + [line];
    }
    assert lines[..|lines|] == lines;
    return Ok(lineGroups);
  }

  /** A header line opens a new group at the end. */
  lemma OpenGroup(groups: seq<seq<string>>, line: string)
    requires WellGrouped(groups) && IsHeader(line)
    ensures Flatten(groups + [[line]]) == Flatten(groups) + [line]
    ensures WellGrouped(groups + [[line]])
  {
    assert (groups + [[line]])[..|groups|] == groups;
  }

  /** Any other line is pushed onto the last group. */
  lemma ExtendGroup(groups: seq<seq<string>>, line: string)
    requires WellGrouped(groups) && groups != [] && !IsHeader(line)
    ensures var last := |groups| - 1;
      var next := groups[..last] + [groups[last] + [line]];
      Flatten(next) == Flatten(groups) + [line] && WellGrouped(next)
  {
    var last := |groups| - 1;
    var next := groups[..last] + [groups[last] + [line]];
    assert next[..last] == groups[..last];
    assert Flatten(groups) == Flatten(groups[..last]) + groups[last];
  }

  lemma {:induction false} FlattenLength(groups: seq<seq<string>>)
    requires WellGrouped(groups)
    ensures |Flatten(groups)| >= |groups|
    decreases |groups|
  {
    if groups != [] {
      FlattenLength(groups[..|groups| - 1]);
    }
  }

  /** The grouping is the only one of its lines: well-formed groups with the same lines are the same groups. */
  lemma {:induction false} GroupingUnique(a: seq<seq<string>>, b: seq<seq<string>>)
    requires WellGrouped(a) && WellGrouped(b)
    requires Flatten(a) == Flatten(b)
    ensures a == b
    decreases |a|
  {
    FlattenLength(a);
    FlattenLength(b);
    if a != [] && b != [] {
      var lines := Flatten(a);
      var la, lb := a[|a| - 1], b[|b| - 1];
      var ia, ib := a[..|a| - 1], b[..|b| - 1];
      assert lines == Flatten(ia) + la && lines == Flatten(ib) + lb;
      var sa, sb := |lines| - |la|, |lines| - |lb|;
      assert sb <= sa by {
        assert forall k :: sa < k < |lines| ==> lines[k] == la[k - sa];
        assert IsHeader(lines[sb]) by { assert lines[sb] == lb[0]; }
      }
      assert sa <= sb by {
        assert forall k :: sb < k < |lines| ==> lines[k] == lb[k - sb];
        assert IsHeader(lines[sa]) by { assert lines[sa] == la[0]; }
      }
      assert la == lines[sa..] == lb;
      assert Flatten(ia) == lines[..sa] == Flatten(ib);
      GroupingUnique(ia, ib);
      assert a == ia + [la] && b == ib + [lb];
    }
  }

  // ----- controllers (patch-parser.ts:107-114) -----

  /** `line.replace('[', '').replace(']', '')`. */
  function HeaderName(line: string): string {
    ReplaceFirst(ReplaceFirst(line, "["), "]")
  }

  /** The record pushed for a one-line group: `count` is `parseInt` of the name without `p2b`. */
  function ControllerOf(line: string, index: nat): Controller {
    var name := HeaderName(line);
    Controller(name, index, ParseInt(ReplaceFirst(name, "p2b")))
  }

  /** A header `[name]` whose name has no `]` gives back that name. */
  lemma HeaderNameOf(name: string)
    requires ']' !in name
    ensures HeaderName("[" + name + "]") == name
  {
    assert "[" <= "[" + name + "]";
    assert ("[" + name + "]")[1..] == name + [']'] + [];
    ReplaceFirstSplits(name, ']', []);
  }

  /** The record of a header depends on the header only through its name. */
  lemma ControllerOfName(line: string, name: string, index: nat)
    requires HeaderName(line) == name
    ensures ControllerOf(line, index) == Controller(name, index, ParseInt(ReplaceFirst(name, "p2b")))
  {
  }

  /** The header `[p2bN]` declares a controller whose count is N. */
  lemma ControllerOfP2b(n: nat, index: nat)
    ensures ControllerOf("[" + ("p2b" + NatStr(n)) + "]", index) == Controller("p2b" + NatStr(n), index, Some(n))
  {
    var digits := NatStr(n);
    var name := "p2b" + digits;
    assert ']' !in name by {
      assert forall i :: 0 <= i < |digits| ==> IsDigit(digits[i]);
      assert forall i :: 3 <= i < |name| ==> name[i] == digits[i - 3];
    }
    HeaderNameOf(name);
    ControllerOfName("[" + name + "]", name, index);
    ReplaceFirstPrefix("p2b", digits);
    ParseIntOfNatStr(n);
  }


  /** The first `|controllers|` groups are one-line groups, read as controllers numbered from 1. */
  predicate ControllersOfGroups(groups: seq<seq<string>>, controllers: seq<Controller>) {
    |controllers| <= |groups| &&
    forall i :: 0 <= i < |controllers| ==>
      |groups[i]| == 1 && controllers[i] == ControllerOf(groups[i][0], i + 1)
  }

  /** Reading the next one-line group as controller `n + 1` extends the controllers read so far. */
  lemma ControllersStep(groups: seq<seq<string>>, controllers: seq<Controller>, line: string, buttons: nat)
    requires ControllersOfGroups(groups, controllers)
    requires |controllers| < |groups| && groups[|controllers|] == [line] && buttons == |controllers| + 1
    ensures ControllersOfGroups(groups, controllers + [ControllerOf(line, buttons)])
  {
  }

  /**
   * The loop that shifts the leading one-line groups off as controllers,
   * numbering them 1, 2, 3, ... with the `buttons` counter.
   */
  method TakeControllers(groups: seq<seq<string>>) returns (controllers: seq<Controller>, rest: seq<seq<string>>)
    ensures ControllersOfGroups(groups, controllers) && rest == groups[|controllers|..]
    ensures rest == [] || |rest[0]| != 1
  {
    controllers := [];
    rest := groups;
    var buttons := 1;
    while rest != [] && |rest[0]| == 1
      invariant buttons == |controllers| + 1
      invariant ControllersOfGroups(groups, controllers) && rest == groups[|controllers|..]
      decreases |rest|
    {
      assert rest[0] == groups[|controllers|] == [rest[0][0]];
      var line := rest[0][0];
      ControllersStep(groups, controllers, line, buttons);
      rest := rest[1..];
      controllers := controllers + [ControllerOf(line, buttons)];
      buttons := buttons + 1;
    }
  }


  // ----- values (patch-parser.ts:2-76) -----

  /** The expression operators `*`, `/`, `+` and `-`. */
  const Operators: set<char> := {'*', '/', '+', '-'}

  /** `split('.').map(parseInt)`, first two elements: controller and sub-index. */
  function AddressParts(digits: string): (Option<int>, Option<int>) {
    var parts := SplitOn(digits, {'.'});
    (ParseInt(parts[0]), if |parts| > 1 then ParseInt(parts[1]) else None)
  }

  /** `/^\d+(\.\d+)?V$/`. */
  predicate IsVoltageText(t: string) {
    |t| >= 2 && t[|t| - 1] == 'V' &&
    var body := t[..|t| - 1];
    var whole := RadixPrefix(body, false);
    |whole| >= 1 &&
    (|whole| == |body| || (body[|whole|] == '.' && |body| > |whole| + 1 && AllDigits(body[|whole| + 1..])))
  }

  /**
   * The leaf classification: a `P`, `B`, `L`, `O`, `I` or `N` first letter,
   * then the voltage pattern, then a leading digit, else a variable. The
   * `replace(letter, '')` of each lettered kind removes that first letter;
   * the `replace('N', '')` of a voltage removes nothing, as a voltage text
   * holds no `N`.
   */
  function ParseValue(token: string): (v: Value)
    ensures v.text == token
    ensures v.Pot? <==> |token| > 0 && token[0] == 'P'
    ensures v.Button? <==> |token| > 0 && token[0] == 'B'
    ensures v.Led? <==> |token| > 0 && token[0] == 'L'
    ensures v.Output? <==> |token| > 0 && token[0] == 'O'
    ensures v.Input? <==> |token| > 0 && token[0] == 'I'
    ensures v.InputNormalized? <==> |token| > 0 && token[0] == 'N'
    ensures v.Voltage? <==> IsVoltageText(token)
    ensures v.Number? <==> |token| > 0 && IsDigit(token[0]) && !IsVoltageText(token)
    ensures v.Variable? <==> token == [] || (token[0] !in "PBLOIN" && !IsDigit(token[0]))
  {
    VoltageTextLeadingDigit(token);
    if token == [] then Variable(token)
    else
      var rest := token[1..];
      match token[0]
      case 'P' => Pot(token, AddressParts(rest).0, AddressParts(rest).1)
      case 'B' => Button(token, AddressParts(rest).0, AddressParts(rest).1)
      case 'L' => Led(token, AddressParts(rest).0, AddressParts(rest).1)
      case 'O' => Output(token, ParseInt(rest))
      case 'I' => Input(token, ParseInt(rest))
      case 'N' => InputNormalized(token, ParseInt(rest))
      case _ =>
        if IsVoltageText(token) then Voltage(token, ParseInt(token))
        else if IsDigit(token[0]) then Number(token)
        else Variable(token)
  }

  /** The value text after the clean-up: parentheses removed, then upper case. */
  function Clean(raw: string): (t: string)
    ensures |t| <= |raw|
    ensures forall i :: 0 <= i < |t| ==> t[i] != '(' && t[i] != ')' && !('a' <= t[i] <= 'z')
  {
    var noParens := Filter(raw, NotParen);
    assert forall i :: 0 <= i < |noParens| ==> NotParen(noParens[i]);
    ToUpper(noParens)
  }

  /** Each token read as a leaf value. */
  function ParseOperands(tokens: seq<string>): (vs: seq<Value>)
    ensures |vs| == |tokens| && forall k :: 0 <= k < |tokens| ==> vs[k] == ParseValue(tokens[k])
  {
    seq(|tokens|, k requires 0 <= k < |tokens| => ParseValue(tokens[k]))
  }

  /**
   * `parseParamValue`: the cleaned text is an expression when an operator
   * occurs in it, and then every piece between operators is a leaf operand.
   */
  function ParseParamValue(raw: string): (r: ParamValue)
    ensures r.Expression? ==> r.text == Clean(raw) && |r.operands| == CountIn(r.text, Operators) + 1
    ensures r.Leaf? ==> r.value.text == Clean(raw) && CountIn(r.value.text, Operators) == 0
  {
    var value := Clean(raw);
    CountInPositive(value, Operators);
    if ContainsAny(value, Operators) then
      var tokens := SplitOn(value, Operators);
      SplitOnLength(value, Operators);
      Expression(value, ParseOperands(tokens))
    else
      Leaf(ParseValue(value))
  }

  /** Text with no parentheses and no lower-case letter, as `Clean` leaves it. */
  predicate IsClean(t: string) {
    forall i :: 0 <= i < |t| ==> t[i] != '(' && t[i] != ')' && !('a' <= t[i] <= 'z')
  }

  /** The clean-up works character by character. */
  lemma CleanAppend(a: string, b: string)
    ensures Clean(a + b) == Clean(a) + Clean(b)
  {
    FilterAppend(a, b, NotParen);
    ToUpperAppend(Filter(a, NotParen), Filter(b, NotParen));
  }

  /** A parenthesis is dropped; any other character is kept, a lower-case ASCII letter as its capital. */
  lemma CleanOne(c: char)
    ensures Clean([c]) == if c == '(' || c == ')' then [] else [UpperChar(c)]
  {
    FilterOne(c, NotParen);
  }

  /** Text that is already clean is left as it is. */
  lemma CleanKeeps(t: string)
    requires IsClean(t)
    ensures Clean(t) == t
  {
    assert forall i :: 0 <= i < |t| ==> NotParen(t[i]);
    assert ToUpper(t) == t;
  }

  /** How `ParseParamValue` reads clean text. */
  lemma ParseParamValueOfClean(t: string)
    requires IsClean(t)
    ensures ParseParamValue(t) ==
      if ContainsAny(t, Operators) then Expression(t, ParseOperands(SplitOn(t, Operators)))
      else Leaf(ParseValue(t))
  {
    CleanKeeps(t);
  }

  /** An operator between two clean operator-free tokens makes a two-operand expression of them. */
  lemma ExpressionOfTwo(a: string, op: char, b: string)
    requires op in Operators
    requires IsClean(a) && IsClean(b)
    requires forall i :: 0 <= i < |a| ==> a[i] !in Operators
    requires forall i :: 0 <= i < |b| ==> b[i] !in Operators
    ensures ParseParamValue(a + [op] + b) == Expression(a + [op] + b, [ParseValue(a), ParseValue(b)])
  {
    ExpressionOperands(a, op, b);
    TwoOperands(a, b);
  }

  lemma ExpressionOperands(a: string, op: char, b: string)
    requires op in Operators
    requires IsClean(a) && IsClean(b)
    requires forall i :: 0 <= i < |a| ==> a[i] !in Operators
    requires forall i :: 0 <= i < |b| ==> b[i] !in Operators
    ensures ParseParamValue(a + [op] + b) == Expression(a + [op] + b, ParseOperands([a, b]))
  {
    var t := a + [op] + b;
    CleanAround(a, op, b);
    ParseParamValueOfClean(t);
    assert t[|a|] == op;
    SplitOnFirst(a, op, b, Operators);
    SplitOnNone(b, Operators);
  }

  lemma TwoOperands(a: string, b: string)
    ensures ParseOperands([a, b]) == [ParseValue(a), ParseValue(b)]
  {
  }

  lemma CleanAround(a: string, op: char, b: string)
    requires op in Operators
    requires IsClean(a) && IsClean(b)
    ensures IsClean(a + [op] + b)
  {
    var t := a + [op] + b;
    assert forall i :: 0 <= i < |a| ==> t[i] == a[i];
    assert forall i :: |a| < i < |t| ==> t[i] == b[i - |a| - 1];
  }

  /** A leading `-` makes an expression whose first operand is the variable with the empty name. */
  lemma LeadingMinus(raw: string)
    ensures var r := ParseParamValue("-" + raw);
      r.Expression? && r.operands[0] == Variable("")
  {
    CleanAppend("-", raw);
    CleanOne('-');
    var t := Clean("-" + raw);
    assert t == [] + ['-'] + Clean(raw);
    SplitOnFirst([], '-', Clean(raw), Operators);
  }

  /** How `ParseValue` reads a token that starts with `P`, `B` or `L`. */
  lemma ParseValueAddress(t: string)
    requires |t| > 0 && (t[0] == 'P' || t[0] == 'B' || t[0] == 'L')
    ensures var p := AddressParts(t[1..]);
      ParseValue(t) ==
        if t[0] == 'P' then Pot(t, p.0, p.1)
        else if t[0] == 'B' then Button(t, p.0, p.1)
        else Led(t, p.0, p.1)
  {
  }

  /** How `ParseValue` reads a token that starts with `O`, `I` or `N`. */
  lemma ParseValueIndex(t: string)
    requires |t| > 0 && (t[0] == 'O' || t[0] == 'I' || t[0] == 'N')
    ensures var n := ParseInt(t[1..]);
      ParseValue(t) ==
        if t[0] == 'O' then Output(t, n)
        else if t[0] == 'I' then Input(t, n)
        else InputNormalized(t, n)
  {
    if t[0] == 'O' {
      ParseValueOutput(t);
    } else if t[0] == 'I' {
      ParseValueInput(t);
    } else {
      ParseValueNormalized(t);
    }
  }

  lemma ParseValueOutput(t: string)
    requires |t| > 0 && t[0] == 'O'
    ensures ParseValue(t) == Output(t, ParseInt(t[1..]))
  {
  }

  lemma ParseValueInput(t: string)
    requires |t| > 0 && t[0] == 'I'
    ensures ParseValue(t) == Input(t, ParseInt(t[1..]))
  {
  }

  lemma ParseValueNormalized(t: string)
    requires |t| > 0 && t[0] == 'N'
    ensures ParseValue(t) == InputNormalized(t, ParseInt(t[1..]))
  {
  }


  /** How `ParseValue` reads a token with none of the six letters in front. */
  lemma ParseValueUnlettered(t: string)
    requires t == [] || t[0] !in "PBLOIN"
    ensures ParseValue(t) ==
      if IsVoltageText(t) then Voltage(t, ParseInt(t))
      else if |t| > 0 && IsDigit(t[0]) then Number(t)
      else Variable(t)
  {
    if t != [] {
      assert t[0] != 'P' && t[0] != 'B' && t[0] != 'L' && t[0] != 'O' && t[0] != 'I' && t[0] != 'N';
    }
  }

  /** The address parts are `parseInt` of the first two dot-separated pieces. */
  lemma AddressPartsOfPieces(digits: string, a: string, b: string)
    requires SplitOn(digits, {'.'}) == [a, b]
    ensures AddressParts(digits) == (ParseInt(a), ParseInt(b))
  {
  }

  /** Two decimal numbers joined by a dot split back into those numbers. */
  lemma AddressPartsOf(c: nat, i: nat)
    ensures AddressParts(NatStr(c) + "." + NatStr(i)) == (Some(c), Some(i))
  {
    var left, right := NatStr(c), NatStr(i);
    var digits := left + "." + right;
    assert digits == left + ['.'] + right;
    SplitOnFirst(left, '.', right, {'.'});
    SplitOnNone(right, {'.'});
    AddressPartsOfPieces(digits, left, right);
    ParseIntOfNatStr(c);
    ParseIntOfNatStr(i);
  }


  lemma AddressWith(letter: char, rest: string, c: Option<int>, i: Option<int>)
    requires letter == 'P' || letter == 'B' || letter == 'L'
    requires AddressParts(rest) == (c, i)
    ensures var t := [letter] + rest;
      ParseValue(t) ==
        if letter == 'P' then Pot(t, c, i)
        else if letter == 'B' then Button(t, c, i)
        else Led(t, c, i)
  {
    var t := [letter] + rest;
    assert t[0] == letter && t[1..] == rest;
    ParseValueAddress(t);
  }

  /** `P`, `B` and `L` addresses `X<c>.<i>` read back controller `c` and sub-index `i`. */
  lemma AddressRoundTrip(letter: char, c: nat, i: nat)
    requires letter == 'P' || letter == 'B' || letter == 'L'
    ensures var t := [letter] + (NatStr(c) + "." + NatStr(i));
      ParseValue(t) ==
        if letter == 'P' then Pot(t, Some(c), Some(i))
        else if letter == 'B' then Button(t, Some(c), Some(i))
        else Led(t, Some(c), Some(i))
  {
    AddressPartsOf(c, i);
    AddressWith(letter, NatStr(c) + "." + NatStr(i), Some(c), Some(i));
  }

  /** `O<n>`, `I<n>` and `N<n>` read back the index `n`. */
  lemma IndexRoundTrip(letter: char, n: nat)
    requires letter == 'O' || letter == 'I' || letter == 'N'
    ensures var t := [letter] + NatStr(n);
      ParseValue(t) ==
        if letter == 'O' then Output(t, Some(n))
        else if letter == 'I' then Input(t, Some(n))
        else InputNormalized(t, Some(n))
  {
    var t := [letter] + NatStr(n);
    assert t[0] == letter;
    assert t[1..] == NatStr(n);
    ParseValueIndex(t);
    ParseIntOfNatStr(n);
  }

  lemma VoltageTextLeadingDigit(t: string)
    ensures IsVoltageText(t) ==> |t| > 0 && IsDigit(t[0])
  {
    if IsVoltageText(t) {
      VoltageTextStartsWithDigit(t);
    }
  }

  lemma VoltageTextStartsWithDigit(t: string)
    requires IsVoltageText(t)
    ensures IsDigit(t[0])
  {
    var body := t[..|t| - 1];
    assert RadixPrefix(body, false)[0] == body[0] == t[0];
  }

  /** Digits, an optional dot and more digits, and a `V` make a voltage text. */
  lemma VoltageTextOf(whole: string, fraction: string)
    requires |whole| >= 1 && AllDigits(whole)
    requires fraction == [] || (fraction[0] == '.' && |fraction| >= 2 && AllDigits(fraction[1..]))
    ensures IsVoltageText(whole + fraction + "V")
  {
    var t := whole + fraction + "V";
    var body := t[..|t| - 1];
    assert body == whole + fraction;
    RadixPrefixOfDigits(whole, fraction, false);
    if fraction != [] {
      assert body[|whole|] == '.';
      assert body[|whole| + 1..] == fraction[1..];
    }
  }

  /** A voltage text is read as a voltage whose index is `parseInt` of the whole text. */
  lemma ParseValueVoltage(t: string)
    requires IsVoltageText(t)
    ensures ParseValue(t) == Voltage(t, ParseInt(t))
  {
    VoltageTextStartsWithDigit(t);
    ParseValueUnlettered(t);
  }

  /** `<n>V` and `<n>.<m>V` are voltages whose index is the whole part `n`. */
  lemma VoltageRoundTrip(n: nat, fraction: Option<nat>)
    ensures var t := NatStr(n) + (if fraction.Some? then "." + NatStr(fraction.value) else "") + "V";
      ParseValue(t) == Voltage(t, Some(n))
  {
    var digits := NatStr(n);
    var after := if fraction.Some? then "." + NatStr(fraction.value) else "";
    if fraction.Some? {
      assert after[1..] == NatStr(fraction.value);
    }
    var tail := after + "V";
    var t := digits + tail;
    assert t == digits + after + "V";
    VoltageTextOf(digits, after);
    ParseValueVoltage(t);
    assert tail[0] == (if fraction.Some? then '.' else 'V');
    ParseIntNatStr(n, tail);
  }


  /** A run of digits without the `V` suffix is a number. */
  lemma NumberRoundTrip(n: nat)
    ensures ParseValue(NatStr(n)) == Number(NatStr(n))
  {
    var t := NatStr(n);
    assert IsDigit(t[0]) && IsDigit(t[|t| - 1]);
    ParseValueUnlettered(t);
  }

  /** Every token that no earlier rule claims is a variable. */
  lemma VariableFallback(t: string)
    requires t == [] || (t[0] !in "PBLOIN" && !IsDigit(t[0]))
    ensures ParseValue(t) == Variable(t)
  {
    ParseValueUnlettered(t);
    if IsVoltageText(t) {
      VoltageTextStartsWithDigit(t);
    }
  }

  /** A leaf is primitive (a literal) exactly when its token starts with a digit. */
  lemma PrimitiveIffDigit(t: string)
    ensures ParseValue(t).IsPrimitive() <==> |t| > 0 && IsDigit(t[0])
  {
    if t != [] && (t[0] == 'P' || t[0] == 'B' || t[0] == 'L') {
      ParseValueAddress(t);
      assert !ParseValue(t).IsPrimitive();
    } else if t != [] && (t[0] == 'O' || t[0] == 'I' || t[0] == 'N') {
      ParseValueIndex(t);
      assert !ParseValue(t).IsPrimitive();
    } else if IsVoltageText(t) {
      ParseValueVoltage(t);
      VoltageTextStartsWithDigit(t);
    } else if t != [] && IsDigit(t[0]) {
      ParseValueNumber(t);
    } else {
      VariableFallback(t);
    }
  }

  /** A token that starts with a digit and is not a voltage text is a number. */
  lemma ParseValueNumber(t: string)
    requires |t| > 0 && IsDigit(t[0]) && !IsVoltageText(t)
    ensures ParseValue(t) == Number(t)
  {
    ParseValueUnlettered(t);
  }

  // ----- circuits (patch-parser.ts:78-87) -----

  /** `const [name, value] = line.split('=')`: a line without `=` has no value. */
  function ParseParamLine(line: string): (r: Option<Param>)
    ensures r.Some? <==> '=' in line
  {
    var parts := SplitOn(line, {'='});
    SplitOnLength(line, {'='});
    CountInPositive(line, {'='});
    assert ContainsAny(line, {'='}) <==> '=' in line;
    if |parts| == 1 then None else Some(Param(parts[0], ParseParamValue(parts[1])))
  }

  /** A line whose `=`-split has at least two pieces is the first piece named, with the second as value. */
  lemma ParamLineOfPieces(line: string, name: string, value: string, later: seq<string>)
    requires SplitOn(line, {'='}) == [name] + ([value] + later)
    ensures ParseParamLine(line) == Some(Param(name, ParseParamValue(value)))
  {
    assert '=' in line by {
      CountInPositive(line, {'='});
      SplitOnLength(line, {'='});
    }
  }

  /** The name is the text before the `=`, the value the text after it. */
  lemma ParamLineOf(name: string, value: string)
    requires '=' !in name && '=' !in value
    ensures ParseParamLine(name + "=" + value) == Some(Param(name, ParseParamValue(value)))
  {
    var line := name + "=" + value;
    assert line == name + ['='] + value;
    SplitOnFirst(name, '=', value, {'='});
    SplitOnNone(value, {'='});
    assert SplitOn(line, {'='}) == [name] + ([value] + []);
    ParamLineOfPieces(line, name, value, []);
  }

  /** Text after a second `=` is dropped: the value ends at the second `=`. */
  lemma ParamLineDropsExtra(name: string, value: string, more: string)
    requires '=' !in name && '=' !in value
    ensures ParseParamLine(name + "=" + value + "=" + more) == Some(Param(name, ParseParamValue(value)))
  {
    var line := name + "=" + value + "=" + more;
    assert line == name + ['='] + (value + ['='] + more);
    SplitOnFirst(name, '=', value + ['='] + more, {'='});
    SplitOnFirst(value, '=', more, {'='});
    ParamLineOfPieces(line, name, value, SplitOn(more, {'='}));
  }



  function ParseParams(lines: seq<string>): (r: Result<seq<Param>, ParseError>)
    ensures r.Ok? <==> forall k :: 0 <= k < |lines| ==> '=' in lines[k]
    ensures r.Ok? ==> (|r.value| == |lines| &&
      forall k :: 0 <= k < |lines| ==> ParseParamLine(lines[k]) == Some(r.value[k]))
    ensures r.Err? ==> r.error.ParamWithoutValue?
    decreases |lines|
  {
    if lines == [] then Ok([])
    else
      match ParseParamLine(lines[0])
      case None => Err(ParamWithoutValue(lines[0]))
      case Some(p) =>
        match ParseParams(lines[1..])
        case Err(e) => Err(e)
        case Ok(ps) => Ok([p] + ps)
  }

  predicate ParamsHaveValues(group: seq<string>) {
    forall k :: 1 <= k < |group| ==> '=' in group[k]
  }

  function ParseCircuit(group: seq<string>): (r: Result<Circuit, ParseError>)
    requires |group| >= 1
    ensures r.Ok? <==> ParamsHaveValues(group)
    ensures r.Ok? ==> r.value.name == HeaderName(group[0]) && |r.value.params| == |group| - 1
    ensures r.Err? ==> r.error.ParamWithoutValue?
  {
    assert ParamsHaveValues(group) <==> forall k :: 0 <= k < |group[1..]| ==> '=' in group[1..][k] by {
      assert forall k :: 0 <= k < |group[1..]| ==> group[1..][k] == group[k + 1];
    }
    match ParseParams(group[1..])
    case Err(e) => Err(e)
    case Ok(ps) => Ok(Circuit(HeaderName(group[0]), ps))
  }

  /** The circuit generator, drained by `Array.from`: the first bad line throws. */
  function ParseCircuits(groups: seq<seq<string>>): (r: Result<seq<Circuit>, ParseError>)
    requires forall j :: 0 <= j < |groups| ==> |groups[j]| >= 1
    ensures r.Ok? <==> forall j :: 0 <= j < |groups| ==> ParamsHaveValues(groups[j])
    ensures r.Ok? ==> (|r.value| == |groups| &&
      forall j :: 0 <= j < |groups| ==> ParseCircuit(groups[j]) == Ok(r.value[j]))
    ensures r.Err? ==> r.error.ParamWithoutValue?
    decreases |groups|
  {
    if groups == [] then Ok([])
    else
      match ParseCircuit(groups[0])
      case Err(e) => Err(e)
      case Ok(c) =>
        match ParseCircuits(groups[1..])
        case Err(e) => Err(e)
        case Ok(cs) => Ok([c] + cs)
  }

  // ----- the whole parse (patch-parser.ts:89-118) -----

  /** How many lines are headers. */
  function HeaderCount(lines: seq<string>): nat
    decreases |lines|
  {
    if lines == [] then 0 else (if IsHeader(lines[0]) then 1 else 0) + HeaderCount(lines[1..])
  }

  /** The text parses: it starts with a header and every other line has an `=`. */
  predicate ParsesWithoutError(lines: seq<string>) {
    (lines == [] || IsHeader(lines[0])) &&
    forall j :: 0 <= j < |lines| && !IsHeader(lines[j]) ==> '=' in lines[j]
  }

  lemma {:induction false} HeaderCountAppend(a: seq<string>, b: seq<string>)
    ensures HeaderCount(a + b) == HeaderCount(a) + HeaderCount(b)
    decreases |a|
  {
    if a != [] {
      assert (a + b)[0] == a[0] && (a + b)[1..] == a[1..] + b;
      HeaderCountAppend(a[1..], b);
    } else {
      assert a + b == b;
    }
  }

  lemma {:induction false} HeaderCountOfBody(g: seq<string>)
    requires forall k :: 0 <= k < |g| ==> !IsHeader(g[k])
    ensures HeaderCount(g) == 0
    decreases |g|
  {
    if g != [] {
      HeaderCountOfBody(g[1..]);
    }
  }

  /** Well-formed groups hold one header each. */
  lemma {:induction false} HeaderCountOfGroups(groups: seq<seq<string>>)
    requires WellGrouped(groups)
    ensures HeaderCount(Flatten(groups)) == |groups|
    decreases |groups|
  {
    if groups != [] {
      var init, g := groups[..|groups| - 1], groups[|groups| - 1];
      HeaderCountOfGroups(init);
      HeaderCountAppend(Flatten(init), g);
      assert g == [g[0]] + g[1..];
      HeaderCountAppend([g[0]], g[1..]);
      HeaderCountOfBody(g[1..]);
    }
  }

  predicate BodiesHaveValues(lines: seq<string>) {
    forall j :: 0 <= j < |lines| && !IsHeader(lines[j]) ==> '=' in lines[j]
  }

  /** The non-header lines of well-formed groups are exactly their parameter lines. */
  lemma {:induction false} BodiesOfGroups(groups: seq<seq<string>>)
    requires WellGrouped(groups)
    ensures BodiesHaveValues(Flatten(groups)) <==> forall j :: 0 <= j < |groups| ==> ParamsHaveValues(groups[j])
    decreases |groups|
  {
    if groups != [] {
      var init, g := groups[..|groups| - 1], groups[|groups| - 1];
      BodiesOfGroups(init);
      var a := Flatten(init);
      var lines := a + g;
      assert Flatten(groups) == lines;
      assert GroupShape(g);
      assert BodiesHaveValues(lines) <==> BodiesHaveValues(a) && ParamsHaveValues(g) by {
        assert forall j :: 0 <= j < |a| ==> lines[j] == a[j];
        assert forall k :: 0 <= k < |g| ==> lines[|a| + k] == g[k];
        if BodiesHaveValues(a) && ParamsHaveValues(g) {
          forall j | 0 <= j < |lines| && !IsHeader(lines[j]) ensures '=' in lines[j] {
            if j >= |a| {
              assert lines[j] == g[j - |a|];
            }
          }
        }
      }
      assert (forall j :: 0 <= j < |groups| ==> ParamsHaveValues(groups[j])) <==>
        (forall j :: 0 <= j < |init| ==> ParamsHaveValues(init[j])) && ParamsHaveValues(g) by {
        assert forall j :: 0 <= j < |init| ==> groups[j] == init[j];
      }
    }
  }

  /**
   * Once the lines are grouped and the first `n` groups (one line each)
   * are taken as controllers, the parse succeeds exactly when every other
   * group's parameter lines hold an `=`, and every header became a
   * controller or a circuit.
   */
  lemma OutcomeOfGroups(lines: seq<string>, groups: seq<seq<string>>, n: nat)
    requires lines == [] || IsHeader(lines[0])
    requires Flatten(groups) == lines && WellGrouped(groups)
    requires n <= |groups| && forall j :: 0 <= j < n ==> |groups[j]| == 1
    ensures ParsesWithoutError(lines) <==> forall j :: 0 <= j < |groups[n..]| ==> ParamsHaveValues(groups[n..][j])
    ensures HeaderCount(lines) == |groups|
  {
    BodiesOfGroups(groups);
    HeaderCountOfGroups(groups);
    var rest := groups[n..];
    assert forall j :: 0 <= j < |rest| ==> rest[j] == groups[n + j];
    assert forall j :: 0 <= j < n ==> ParamsHaveValues(groups[j]);
    if forall j :: 0 <= j < |rest| ==> ParamsHaveValues(rest[j]) {
      forall j | 0 <= j < |groups| ensures ParamsHaveValues(groups[j]) {
        if j >= n {
          assert groups[j] == rest[j - n];
        }
      }
    }
  }

  /**
   * `patch` is what the lines read as: they split into header-led groups,
   * the leading run of one-line groups are the controllers, and the
   * remaining groups parse, in order, as the circuits.
   */
  ghost predicate PatchOfLines(lines: seq<string>, patch: Patch) {
    exists groups :: PatchOfGroups(lines, groups, patch)
  }

  ghost predicate PatchOfGroups(lines: seq<string>, groups: seq<seq<string>>, patch: Patch) {
    var n := |patch.controllers|;
    Flatten(groups) == lines && WellGrouped(groups) &&
    ControllersOfGroups(groups, patch.controllers) && (n == |groups| || |groups[n]| != 1) &&
    (forall j :: n <= j < |groups| ==> |groups[j]| >= 1) &&
    ParseCircuits(groups[n..]) == Ok(patch.circuits)
  }

  /** The lines determine the patch: there is at most one reading of them. */
  lemma PatchOfLinesUnique(lines: seq<string>, p: Patch, q: Patch)
    requires PatchOfLines(lines, p) && PatchOfLines(lines, q)
    ensures p == q
  {
    var gp :| PatchOfGroups(lines, gp, p);
    var gq :| PatchOfGroups(lines, gq, q);
    GroupingUnique(gp, gq);
    assert p.controllers == q.controllers;
  }

  /** One grouping of the lines, with its controllers and circuits, is a reading of them. */
  lemma PatchOfGrouping(lines: seq<string>, groups: seq<seq<string>>, controllers: seq<Controller>, circuits: seq<Circuit>)
    requires Flatten(groups) == lines && WellGrouped(groups)
    requires ControllersOfGroups(groups, controllers)
    requires groups[|controllers|..] == [] || |groups[|controllers|..][0]| != 1
    requires ParseCircuits(groups[|controllers|..]) == Ok(circuits)
    ensures PatchOfLines(lines, Patch(circuits, controllers))
  {
    assert PatchOfGroups(lines, groups, Patch(circuits, controllers));
  }

  /**
   * The part of `parseDroidPatch` after normalisation: group, take the
   * controllers, parse the circuits. It fails exactly when the source throws.
   */
  method ParseLines(lines: seq<string>) returns (r: Result<Patch, ParseError>)
    ensures r.Ok? <==> ParsesWithoutError(lines)
    ensures |lines| > 0 && !IsHeader(lines[0]) ==> r == Err(TextBeforeHeader(lines[0]))
    ensures r.Err? && |lines| > 0 && IsHeader(lines[0]) ==> r.error.ParamWithoutValue?
    ensures r.Ok? ==> |r.value.controllers| + |r.value.circuits| == HeaderCount(lines)
    ensures r.Ok? ==> forall i :: 0 <= i < |r.value.controllers| ==> r.value.controllers[i].index == i + 1
    ensures r.Ok? ==> PatchOfLines(lines, r.value)
  {
    var grouped := GroupLines(lines);
    if grouped.Err? {
      return Err(grouped.error);
    }
    assert lines == [] || IsHeader(lines[0]);
    var lineGroups := grouped.value;
    var controllers, rest := TakeControllers(lineGroups);
    OutcomeOfGroups(lines, lineGroups, |controllers|);
    var circuits := ParseCircuits(rest);
    if circuits.Err? {
      return Err(circuits.error);
    }
    PatchOfGrouping(lines, lineGroups, controllers, circuits.value);
    return Ok(Patch(circuits.value, controllers));
  }

  /** `parseDroidPatch`: the normalised lines of the text, parsed. */
  method ParseDroidPatch(text: string) returns (r: Result<Patch, ParseError>)
    ensures r.Ok? <==> ParsesWithoutError(Lines(text))
    ensures |Lines(text)| > 0 && !IsHeader(Lines(text)[0]) ==> r == Err(TextBeforeHeader(Lines(text)[0]))
    ensures r.Err? && |Lines(text)| > 0 && IsHeader(Lines(text)[0]) ==> r.error.ParamWithoutValue?
    ensures r.Ok? ==> |r.value.controllers| + |r.value.circuits| == HeaderCount(Lines(text))
    ensures r.Ok? ==> forall i :: 0 <= i < |r.value.controllers| ==> r.value.controllers[i].index == i + 1
    ensures r.Ok? ==> PatchOfLines(Lines(text), r.value)
  {
    r := ParseLines(Lines(text));
  }
}
