/**
 * The pure pipeline that turns a raw completion into reply suggestions:
 * split on runs of newlines, strip one leading list number, trim, keep the
 * lines of 1 to 280 characters, and take the first `numSuggestions`.
 */
module SuggestionParser {
  import opened JsText

  const MaxSuggestionLength := 280

  /** Number of leading '\n' characters. */
  function NewlineRun(s: string): (n: nat)
    ensures n <= |s|
    ensures forall i :: 0 <= i < n ==> s[i] == '\n'
    ensures n < |s| ==> s[n] != '\n'
  {
    if s == [] || s[0] != '\n' then 0 else 1 + NewlineRun(s[1..])
  }

  /** `s.split(/\n+/)`, with `cur` the part of the current piece already read. */
  function SplitFrom(s: string, cur: string): (pieces: seq<string>)
    ensures |pieces| >= 1
    decreases |s|
  {
    if s == [] then [cur]
    else if s[0] == '\n' then [cur] + SplitFrom(s[NewlineRun(s)..], "")
    else SplitFrom(s[1..], cur + [s[0]])
  }

  /** `s.split(/\n+/)`: the pieces between maximal runs of newlines; a
      leading or trailing run yields an empty first or last piece. */
  function SplitNewlineRuns(s: string): (pieces: seq<string>)
    ensures |pieces| >= 1
  {
    SplitFrom(s, "")
  }

  /** The input with every run of newlines collapsed to one newline. */
  function CollapseNewlines(s: string): string
    decreases |s|
  {
    if s == [] then []
    else if s[0] == '\n' then "\n" + CollapseNewlines(s[NewlineRun(s)..])
    else [s[0]] + CollapseNewlines(s[1..])
  }

  /** `pieces.join(sep)`. */
  function Join(pieces: seq<string>, sep: string): string {
    if pieces == [] then []
    else if |pieces| == 1 then pieces[0]
    else pieces[0] + sep + Join(pieces[1..], sep)
  }

  predicate NoNewline(s: string) {
    forall i :: 0 <= i < |s| ==> s[i] != '\n'
  }

  lemma NoNewlineSlice(s: string, i: nat, j: nat)
    requires NoNewline(s) && i <= j <= |s|
    ensures NoNewline(s[i..j])
  {
    forall k | 0 <= k < j - i ensures s[i..j][k] != '\n' {
      assert s[i..j][k] == s[i + k];
    }
  }

  lemma {:induction false} SplitFromPieces(s: string, cur: string)
    requires NoNewline(cur)
    ensures forall k :: 0 <= k < |SplitFrom(s, cur)| ==> NoNewline(SplitFrom(s, cur)[k])
    decreases |s|
  {
    if s == [] {
      assert SplitFrom(s, cur) == [cur];
    } else if s[0] == '\n' {
      var rest := s[NewlineRun(s)..];
      SplitFromPieces(rest, "");
      assert SplitFrom(s, cur) == [cur] + SplitFrom(rest, "");
    } else {
      SplitFromPieces(s[1..], cur + [s[0]]);
      assert SplitFrom(s, cur) == SplitFrom(s[1..], cur + [s[0]]);
    }
  }

  lemma JoinCons(x: string, tail: seq<string>, sep: string)
    requires |tail| >= 1
    ensures Join([x] + tail, sep) == x + sep + Join(tail, sep)
  {
    assert ([x] + tail)[1..] == tail;
  }

  lemma SplitFromAtNewline(s: string, cur: string)
    requires s != [] && s[0] == '\n'
    ensures SplitFrom(s, cur) == [cur] + SplitFrom(s[NewlineRun(s)..], "")
    ensures CollapseNewlines(s) == "\n" + CollapseNewlines(s[NewlineRun(s)..])
  {
  }

  lemma SplitFromAtText(s: string, cur: string)
    requires s != [] && s[0] != '\n'
    ensures SplitFrom(s, cur) == SplitFrom(s[1..], cur + [s[0]])
  {
  }

  lemma CollapseAtText(s: string)
    requires s != [] && s[0] != '\n'
    ensures CollapseNewlines(s) == [s[0]] + CollapseNewlines(s[1..])
  {
  }

  lemma ConcatAssoc(a: string, b: string, c: string)
    ensures a + b + c == a + (b + c)
  {
  }

  /** The newline case of SplitFromJoin, given the claim for the rest. */
  lemma SplitFromJoinAtNewline(s: string, cur: string)
    requires s != [] && s[0] == '\n'
    requires Join(SplitFrom(s[NewlineRun(s)..], ""), "\n") == CollapseNewlines(s[NewlineRun(s)..])
    ensures Join(SplitFrom(s, cur), "\n") == cur + CollapseNewlines(s)
  {
    var rest := s[NewlineRun(s)..];
    SplitFromAtNewline(s, cur);
    JoinCons(cur, SplitFrom(rest, ""), "\n");
  }

  /** The text case of SplitFromJoin, given the claim for the rest. */
  lemma SplitFromJoinAtText(s: string, cur: string)
    requires s != [] && s[0] != '\n'
    requires Join(SplitFrom(s[1..], cur + [s[0]]), "\n") == cur + [s[0]] + CollapseNewlines(s[1..])
    ensures Join(SplitFrom(s, cur), "\n") == cur + CollapseNewlines(s)
  {
    var c := CollapseNewlines(s[1..]);
    calc {
      Join(SplitFrom(s, cur), "\n");
      { SplitFromAtText(s, cur); }
      Join(SplitFrom(s[1..], cur + [s[0]]), "\n");
      cur + [s[0]] + c;
      { ConcatAssoc(cur, [s[0]], c); }
      cur + ([s[0]] + c);
      { CollapseAtText(s); }
      cur + CollapseNewlines(s);
    }
  }

  lemma {:induction false} SplitFromJoin(s: string, cur: string)
    ensures Join(SplitFrom(s, cur), "\n") == cur + CollapseNewlines(s)
    decreases |s|
  {
    if s == [] {
      assert SplitFrom(s, cur) == [cur];
      assert cur + CollapseNewlines(s) == cur;
    } else if s[0] == '\n' {
      SplitFromJoin(s[NewlineRun(s)..], "");
      assert "" + CollapseNewlines(s[NewlineRun(s)..]) == CollapseNewlines(s[NewlineRun(s)..]);
      SplitFromJoinAtNewline(s, cur);
    } else {
      SplitFromJoin(s[1..], cur + [s[0]]);
      SplitFromJoinAtText(s, cur);
    }
  }

  /** The split is exact: no piece holds a newline, and joining the pieces
      with one newline gives back the input with each newline run
      collapsed, so the pieces are exactly the text between the runs. */
  lemma SplitNewlineRunsRoundTrip(s: string)
    ensures forall k :: 0 <= k < |SplitNewlineRuns(s)| ==> NoNewline(SplitNewlineRuns(s)[k])
    ensures Join(SplitNewlineRuns(s), "\n") == CollapseNewlines(s)
  {
    SplitFromPieces(s, "");
    SplitFromJoin(s, "");
    assert "" + CollapseNewlines(s) == CollapseNewlines(s);
  }

  /** Number of leading decimal digits. */
  function LeadingDigits(s: string): (n: nat)
    ensures n <= |s|
    ensures forall i :: 0 <= i < n ==> IsDigit(s[i])
    ensures n < |s| ==> !IsDigit(s[n])
  {
    if s == [] || !IsDigit(s[0]) then 0 else 1 + LeadingDigits(s[1..])
  }

  /** `m` is a list marker whose digits end at `d`. */
  ghost predicate MarkerWith(m: string, d: nat) {
    0 < d < |m| &&
    (forall i :: 0 <= i < d ==> IsDigit(m[i])) &&
    (m[d] == '.' || m[d] == ')') &&
    AllWhitespace(m[d + 1..])
  }

  /** A list marker as `/^\d+[\.\)]\s*` matches it: one or more digits,
      a '.' or ')', then whitespace. */
  ghost predicate IsListMarker(m: string) {
    exists d :: MarkerWith(m, d)
  }

  /** `line.replace(/^\d+[\.\)]\s*\/, '')`: removes one leading list marker
      together with all the whitespace after it, or nothing. */
  function StripNumbering(line: string): (r: string)
    ensures |r| <= |line|
  {
    var d := LeadingDigits(line);
    if 0 < d < |line| && (line[d] == '.' || line[d] == ')') then
      var rest := line[d + 1..];
      rest[LeadingWhitespace(rest)..]
    else
      line
  }

  /** Numbering removal only ever drops a prefix. */
  lemma StripNumberingIsSuffix(line: string)
    ensures StripNumbering(line) == line[|line| - |StripNumbering(line)|..]
  {
    var d := LeadingDigits(line);
    if 0 < d < |line| && (line[d] == '.' || line[d] == ')') {
      var rest := line[d + 1..];
      var w := LeadingWhitespace(rest);
      assert rest[w..] == line[d + 1 + w..];
    }
  }

  /** A line that starts with a list marker has its digits followed by
      '.' or ')': numbering removal takes its marker branch. */
  lemma MarkerPrefixForcesBranch(line: string, k: nat)
    requires 0 < k <= |line| && IsListMarker(line[..k])
    ensures 0 < LeadingDigits(line) < |line|
    ensures line[LeadingDigits(line)] == '.' || line[LeadingDigits(line)] == ')'
  {
    var m := line[..k];
    var e: nat :| MarkerWith(m, e);
    assert forall i :: 0 <= i < e ==> IsDigit(line[i]) by {
      forall i | 0 <= i < e ensures IsDigit(line[i]) {
        assert m[i] == line[i];
      }
    }
    assert line[e] == m[e];
  }

  /** Digits, then '.' or ')', then only whitespace: a list marker. */
  lemma MarkerFromParts(m: string, d: nat)
    requires 0 < d < |m|
    requires forall i :: 0 <= i < d ==> IsDigit(m[i])
    requires m[d] == '.' || m[d] == ')'
    requires AllWhitespace(m[d + 1..])
    ensures IsListMarker(m)
  {
    assert MarkerWith(m, d);
  }

  /** The marker branch of numbering removal drops the digits, the
      punctuation and the whitespace run after it. */
  lemma MarkerBranchLength(line: string)
    requires 0 < LeadingDigits(line) < |line|
    requires line[LeadingDigits(line)] == '.' || line[LeadingDigits(line)] == ')'
    ensures var d := LeadingDigits(line);
            |line| - |StripNumbering(line)| == d + 1 + LeadingWhitespace(line[d + 1..])
  {
  }

  /** A slice of whitespace seen through two different slicings. */
  lemma WhitespaceRunInPrefix(line: string, d: nat, w: nat)
    requires d + 1 + w <= |line|
    requires AllWhitespace(line[d + 1..][..w])
    ensures AllWhitespace(line[..d + 1 + w][d + 1..])
  {
    assert line[..d + 1 + w][d + 1..] == line[d + 1..][..w];
  }

  /** In the marker branch the removed prefix is a list marker. */
  lemma MarkerBranchRemovesMarker(line: string)
    requires 0 < LeadingDigits(line) < |line|
    requires line[LeadingDigits(line)] == '.' || line[LeadingDigits(line)] == ')'
    ensures IsListMarker(line[..|line| - |StripNumbering(line)|])
  {
    var d := LeadingDigits(line);
    var w := LeadingWhitespace(line[d + 1..]);
    MarkerBranchLength(line);
    WhitespaceRunInPrefix(line, d, w);
    var m := line[..d + 1 + w];
    assert forall i :: 0 <= i < d ==> IsDigit(m[i]) by {
      forall i | 0 <= i < d ensures IsDigit(m[i]) {
        assert m[i] == line[i];
      }
    }
    MarkerFromParts(m, d);
    assert line[..|line| - |StripNumbering(line)|] == m;
  }

  /** In the marker branch what is left does not start with whitespace. */
  lemma MarkerBranchLeavesNoSpace(line: string)
    requires 0 < LeadingDigits(line) < |line|
    requires line[LeadingDigits(line)] == '.' || line[LeadingDigits(line)] == ')'
    ensures var r := StripNumbering(line);
            |r| < |line| && (r == [] || !IsWhitespace(r[0]))
  {
    var d := LeadingDigits(line);
    var rest := line[d + 1..];
    var w := LeadingWhitespace(rest);
    assert StripNumbering(line) == rest[w..];
  }

  /** What is removed is exactly a list marker with all the whitespace that
      follows it; when nothing is removed, no prefix is a list marker. */
  lemma StripNumberingRemovesMarker(line: string)
    ensures var r := StripNumbering(line);
            r == line[|line| - |r|..] &&
            (|r| < |line| ==> IsListMarker(line[..|line| - |r|]) && (r == [] || !IsWhitespace(r[0]))) &&
            (|r| == |line| ==> forall k :: 0 < k <= |line| ==> !IsListMarker(line[..k]))
  {
    var d := LeadingDigits(line);
    StripNumberingIsSuffix(line);
    if 0 < d < |line| && (line[d] == '.' || line[d] == ')') {
      MarkerBranchRemovesMarker(line);
      MarkerBranchLeavesNoSpace(line);
    } else {
      forall k | 0 < k <= |line| ensures !IsListMarker(line[..k]) {
        if IsListMarker(line[..k]) {
          MarkerPrefixForcesBranch(line, k);
          assert false;
        }
      }
    }
  }

  /** One line after numbering removal and `trim()`. */
  function CleanLine(line: string): string {
    Trim(StripNumbering(line))
  }

  predicate Acceptable(s: string) {
    0 < |s| <= MaxSuggestionLength
  }

  /** `.map(clean)`. */
  function Cleaned(lines: seq<string>): (cs: seq<string>)
    ensures |cs| == |lines|
    ensures forall k :: 0 <= k < |cs| ==> cs[k] == CleanLine(lines[k])
  {
    seq(|lines|, k requires 0 <= k < |lines| => CleanLine(lines[k]))
  }

  /** `.filter(acceptable)`, in input order. */
  function KeepAcceptable(cs: seq<string>): (r: seq<string>)
    ensures |r| <= |cs|
    ensures forall k :: 0 <= k < |r| ==> Acceptable(r[k])
  {
    if cs == [] then []
    else (if Acceptable(cs[0]) then [cs[0]] else []) + KeepAcceptable(cs[1..])
  }

  /** The filter keeps only lines it was given. */
  lemma {:induction false} KeepAcceptableSound(cs: seq<string>)
    ensures forall x :: x in KeepAcceptable(cs) ==> x in cs
  {
    if cs != [] {
      KeepAcceptableSound(cs[1..]);
    }
  }

  /** The filter keeps every acceptable line. */
  lemma {:induction false} KeepAcceptableComplete(cs: seq<string>, k: nat)
    requires k < |cs| && Acceptable(cs[k])
    ensures cs[k] in KeepAcceptable(cs)
  {
    if k > 0 {
      assert cs[k] == cs[1..][k - 1];
      KeepAcceptableComplete(cs[1..], k - 1);
    }
  }

  /** The filter distributes over concatenation, so the kept lines stay in
      input order. */
  lemma {:induction false} KeepAcceptableAppend(a: seq<string>, b: seq<string>)
    ensures KeepAcceptable(a + b) == KeepAcceptable(a) + KeepAcceptable(b)
  {
    if a == [] {
      assert a + b == b;
    } else {
      assert (a + b)[1..] == a[1..] + b;
      KeepAcceptableAppend(a[1..], b);
    }
  }

  /** The lines that survive cleaning and the length filter. */
  function Survivors(lines: seq<string>): (r: seq<string>)
    ensures |r| <= |lines|
    ensures forall k :: 0 <= k < |r| ==> Acceptable(r[k])
  {
    KeepAcceptable(Cleaned(lines))
  }

  /** Every survivor is the cleaned form of some input line. */
  lemma SurvivorsFromLines(lines: seq<string>)
    ensures forall x :: x in Survivors(lines) ==> exists k :: 0 <= k < |lines| && x == CleanLine(lines[k])
  {
    var cs := Cleaned(lines);
    KeepAcceptableSound(cs);
    forall x | x in Survivors(lines) ensures exists k :: 0 <= k < |lines| && x == CleanLine(lines[k]) {
      assert x in cs;
      var k :| 0 <= k < |cs| && cs[k] == x;
    }
  }

  /** Every acceptable cleaned line survives. */
  lemma SurvivorsComplete(lines: seq<string>, k: nat)
    requires k < |lines| && Acceptable(CleanLine(lines[k]))
    ensures CleanLine(lines[k]) in Survivors(lines)
  {
    KeepAcceptableComplete(Cleaned(lines), k);
  }

  /** Nothing survives exactly when no cleaned line is acceptable. */
  lemma SurvivorsEmptyIff(lines: seq<string>)
    ensures Survivors(lines) == [] <==> forall k :: 0 <= k < |lines| ==> !Acceptable(CleanLine(lines[k]))
  {
    if Survivors(lines) != [] {
      SurvivorsFromLines(lines);
      assert Survivors(lines)[0] in Survivors(lines);
    }
    forall k | 0 <= k < |lines| && Acceptable(CleanLine(lines[k]))
      ensures Survivors(lines) != []
    {
      SurvivorsComplete(lines, k);
    }
  }

  /** Every survivor is the cleaned form of some input line, and nothing
      survives exactly when no cleaned line is acceptable. */
  lemma SurvivorsOrigin(lines: seq<string>)
    ensures forall x :: x in Survivors(lines) ==> exists k :: 0 <= k < |lines| && x == CleanLine(lines[k])
    ensures Survivors(lines) == [] <==> forall k :: 0 <= k < |lines| ==> !Acceptable(CleanLine(lines[k]))
  {
    SurvivorsFromLines(lines);
    SurvivorsEmptyIff(lines);
  }

  /** `xs.slice(0, n)` for an integer `n`: a negative `n` counts from the end. */
  function SliceTo(xs: seq<string>, n: int): (r: seq<string>)
    ensures n >= 0 ==> |r| == (if n < |xs| then n else |xs|)
    ensures n < 0 ==> |r| == (if |xs| + n > 0 then |xs| + n else 0)
    ensures r == xs[..|r|]
  {
    if n >= 0 then (if n < |xs| then xs[..n] else xs)
    else (if |xs| + n > 0 then xs[..|xs| + n] else [])
  }

  /** The whole pipeline of `generateReplySuggestions`. */
  function ParseSuggestions(content: string, numSuggestions: int): (r: seq<string>)
    ensures forall k :: 0 <= k < |r| ==> Acceptable(r[k])
    ensures numSuggestions >= 0 ==> |r| <= numSuggestions
  {
    SliceTo(Survivors(SplitNewlineRuns(content)), numSuggestions)
  }

  /** For a non-negative count the result is the first
      `min(numSuggestions, survivors)` surviving lines, in input order. */
  lemma ParseTakesFirstSurvivors(content: string, numSuggestions: nat)
    ensures var s := Survivors(SplitNewlineRuns(content));
            var n := if numSuggestions < |s| then numSuggestions else |s|;
            ParseSuggestions(content, numSuggestions) == s[..n]
  {
  }

  /** Cleaning keeps a newline-free line newline-free and leaves no
      whitespace at either end. */
  lemma CleanLineShape(line: string)
    requires NoNewline(line)
    ensures var c := CleanLine(line);
            NoNewline(c) && (c != [] ==> !IsWhitespace(c[0]) && !IsWhitespace(c[|c| - 1]))
  {
    StripKeepsNoNewline(line);
    TrimKeepsNoNewline(StripNumbering(line));
    TrimShape(StripNumbering(line));
  }

  lemma StripKeepsNoNewline(line: string)
    requires NoNewline(line)
    ensures NoNewline(StripNumbering(line))
  {
    var stripped := StripNumbering(line);
    StripNumberingIsSuffix(line);
    NoNewlineSlice(line, |line| - |stripped|, |line|);
    assert line[|line| - |stripped|..|line|] == stripped;
  }

  lemma TrimKeepsNoNewline(s: string)
    requires NoNewline(s)
    ensures NoNewline(Trim(s))
  {
    TrimShape(s);
    var a, b :| 0 <= a <= b <= |s| && Trim(s) == s[a..b] &&
                AllWhitespace(s[..a]) && AllWhitespace(s[b..]);
    NoNewlineSlice(s, a, b);
  }

  /** Every suggestion is a cleaned line: 1 to 280 characters, no newline,
      no whitespace at either end. */
  lemma SuggestionsAreClean(content: string, numSuggestions: int, k: nat)
    requires k < |ParseSuggestions(content, numSuggestions)|
    ensures var x := ParseSuggestions(content, numSuggestions)[k];
            0 < |x| <= MaxSuggestionLength && NoNewline(x) &&
            !IsWhitespace(x[0]) && !IsWhitespace(x[|x| - 1])
  {
    var lines := SplitNewlineRuns(content);
    var s := Survivors(lines);
    assert ParseSuggestions(content, numSuggestions) == SliceTo(s, numSuggestions);
    var x := s[k];
    SurvivorsOrigin(lines);
    assert x in s;
    var j :| 0 <= j < |lines| && x == CleanLine(lines[j]);
    SplitNewlineRunsRoundTrip(content);
    CleanLineShape(lines[j]);
  }

  /** With a positive count the pipeline yields nothing exactly when no
      line of the completion survives cleaning and the length filter. */
  lemma ParseEmptyIff(content: string, numSuggestions: int)
    requires numSuggestions > 0
    ensures var lines := SplitNewlineRuns(content);
            ParseSuggestions(content, numSuggestions) == [] <==>
              forall k :: 0 <= k < |lines| ==> !Acceptable(CleanLine(lines[k]))
  {
    SurvivorsOrigin(SplitNewlineRuns(content));
  }

  /** Reading newline-free text only extends the current piece. */
  lemma {:induction false} SplitFromText(a: string, rest: string, cur: string)
    requires NoNewline(a)
    ensures SplitFrom(a + rest, cur) == SplitFrom(rest, cur + a)
    decreases |a|
  {
    if a == [] {
      assert a + rest == rest && cur + a == cur;
    } else {
      var s := a + rest;
      assert s[0] == a[0] && s[0] != '\n';
      assert s[1..] == a[1..] + rest;
      assert SplitFrom(s, cur) == SplitFrom(s[1..], cur + [a[0]]);
      SplitFromText(a[1..], rest, cur + [a[0]]);
      assert cur + [a[0]] + a[1..] == cur + a;
    }
  }

  /** A single newline before text closes the current piece. */
  lemma SplitFromNewline(rest: string, cur: string)
    requires rest == [] || rest[0] != '\n'
    ensures SplitFrom("\n" + rest, cur) == [cur] + SplitFrom(rest, "")
  {
    var s := "\n" + rest;
    assert NewlineRun(s) == 1;
    assert s[1..] == rest;
  }

  /** A newline-free line followed by one newline and then text is split
      off as the first piece. */
  lemma SplitLeadingLine(l: string, rest: string)
    requires NoNewline(l)
    requires rest == [] || rest[0] != '\n'
    ensures SplitNewlineRuns(l + "\n" + rest) == [l] + SplitNewlineRuns(rest)
  {
    assert l + "\n" + rest == l + ("\n" + rest);
    SplitFromText(l, "\n" + rest, "");
    assert "" + l == l;
    SplitFromNewline(rest, l);
  }

  /** A newline-free line is a single piece. */
  lemma SplitSingleLine(l: string)
    requires NoNewline(l)
    ensures SplitNewlineRuns(l) == [l]
  {
    SplitFromText(l, "", "");
    assert l + "" == l && "" + l == l;
  }

  /** The example completion splits into its three numbered lines. */
  lemma ExampleSplit(l1: string, l2: string, l3: string)
    requires NoNewline(l1) && NoNewline(l2) && NoNewline(l3)
    requires l2 != [] && l3 != []
    ensures SplitNewlineRuns(l1 + "\n" + l2 + "\n" + l3) == [l1, l2, l3]
  {
    var tail := l2 + "\n" + l3;
    assert l1 + "\n" + l2 + "\n" + l3 == l1 + "\n" + tail;
    assert tail[0] == l2[0];
    SplitLeadingLine(l1, tail);
    SplitLeadingLine(l2, l3);
    SplitSingleLine(l3);
  }

  /** "N) text" cleans to the text when the text has no surrounding whitespace. */
  lemma CleanNumbered(d: char, text: string)
    requires IsDigit(d)
    requires text == [] || (!IsWhitespace(text[0]) && !IsWhitespace(text[|text| - 1]))
    ensures CleanLine([d, ')', ' '] + text) == text
  {
    var line := [d, ')', ' '] + text;
    assert LeadingDigits(line[1..]) == 0;
    assert LeadingDigits(line) == 1;
    var rest := line[2..];
    assert rest == [' '] + text;
    assert rest[1..] == text;
    if text != [] {
      assert LeadingWhitespace(rest[1..]) == 0;
    }
    assert LeadingWhitespace(rest) == 1;
    assert StripNumbering(line) == text;
    assert LeadingWhitespace(text) == 0;
    assert TrailingWhitespace(text) == 0;
    assert text[0..][..|text|] == text;
  }

  lemma NumberedNoNewline(d: char, t: string)
    requires d != '\n' && NoNewline(t)
    ensures NoNewline([d, ')', ' '] + t)
  {
    var l := [d, ')', ' '] + t;
    forall i | 0 <= i < |l| ensures l[i] != '\n' {
      if i >= 3 { assert l[i] == t[i - 3]; }
    }
  }

  /** Two acceptable lines and an empty one: the filter keeps the two. */
  lemma KeepTwoOfThree(cs: seq<string>)
    requires |cs| == 3 && Acceptable(cs[0]) && Acceptable(cs[1]) && cs[2] == ""
    ensures KeepAcceptable(cs) == [cs[0], cs[1]]
  {
    assert KeepAcceptable(cs[2..]) == [] by { assert cs[2..][1..] == []; }
    assert cs[1..][1..] == cs[2..];
  }

  lemma SurvivorsOfThree(l1: string, l2: string, l3: string)
    requires Acceptable(CleanLine(l1)) && Acceptable(CleanLine(l2)) && CleanLine(l3) == ""
    ensures Survivors([l1, l2, l3]) == [CleanLine(l1), CleanLine(l2)]
  {
    var cs := Cleaned([l1, l2, l3]);
    assert cs[0] == CleanLine(l1) && cs[1] == CleanLine(l2) && cs[2] == CleanLine(l3);
    KeepTwoOfThree(cs);
  }

  lemma SplitTwoNumberedLines(t1: string, t2: string)
    requires NoNewline(t1) && NoNewline(t2) && t2 != []
    ensures SplitNewlineRuns(['1', ')', ' '] + t1 + "\n" + ['2', ')', ' '] + t2 + "\n" + "3) ")
            == [['1', ')', ' '] + t1, ['2', ')', ' '] + t2, "3) "]
  {
    var l1, l2, l3 := ['1', ')', ' '] + t1, ['2', ')', ' '] + t2, "3) ";
    assert ['1', ')', ' '] + t1 + "\n" + ['2', ')', ' '] + t2 + "\n" + "3) " == l1 + "\n" + l2 + "\n" + l3;
    NumberedNoNewline('1', t1);
    NumberedNoNewline('2', t2);
    ExampleSplit(l1, l2, l3);
  }

  lemma CleanTwoNumberedLines(t1: string, t2: string)
    requires Acceptable(t1) && !IsWhitespace(t1[0]) && !IsWhitespace(t1[|t1| - 1])
    requires Acceptable(t2) && !IsWhitespace(t2[0]) && !IsWhitespace(t2[|t2| - 1])
    ensures Survivors([['1', ')', ' '] + t1, ['2', ')', ' '] + t2, "3) "]) == [t1, t2]
  {
    CleanNumbered('1', t1);
    CleanNumbered('2', t2);
    CleanNumbered('3', "");
    assert ['3', ')', ' '] + "" == "3) ";
    SurvivorsOfThree(['1', ')', ' '] + t1, ['2', ')', ' '] + t2, "3) ");
  }

  /** Two clean numbered lines followed by an empty numbered line, asked
      for two suggestions, give the two texts. */
  lemma ParseTwoNumberedLines(t1: string, t2: string)
    requires NoNewline(t1) && NoNewline(t2)
    requires Acceptable(t1) && !IsWhitespace(t1[0]) && !IsWhitespace(t1[|t1| - 1])
    requires Acceptable(t2) && !IsWhitespace(t2[0]) && !IsWhitespace(t2[|t2| - 1])
    ensures ParseSuggestions(['1', ')', ' '] + t1 + "\n" + ['2', ')', ' '] + t2 + "\n" + "3) ", 2) == [t1, t2]
  {
    SplitTwoNumberedLines(t1, t2);
    CleanTwoNumberedLines(t1, t2);
  }

  /** The numbered list "1) Great point!\n2) Love this.\n3) " asked for two
      suggestions gives the two texts without their numbers. */
  lemma ExampleNumberedList()
    ensures ParseSuggestions("1) Great point!\n2) Love this.\n3) ", 2) == ["Great point!", "Love this."]
  {
    var t1, t2 := "Great point!", "Love this.";
    assert ['1', ')', ' '] + t1 + "\n" + ['2', ')', ' '] + t2 + "\n" + "3) " == "1) Great point!\n2) Love this.\n3) ";
    ParseTwoNumberedLines(t1, t2);
  }
}
