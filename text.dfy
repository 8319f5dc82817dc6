/**
 * The string operations the property handlers use: JavaScript's `trim`,
 * `split` and `join` on one separator character, the text sanitiser applied to
 * title, description, location and parking, and the comma-separated fallback
 * for the features field.
 */
module Text {

  /** A code point that `String.prototype.trim` removes: ECMAScript's WhiteSpace and LineTerminator. */
  predicate IsSpace(c: char) {
    || c == ' ' || c == '\t' || c == '\n' || c == '\r' || c == '\U{B}' || c == '\U{C}'
    || c == '\U{A0}' || c == '\U{1680}' || ('\U{2000}' <= c <= '\U{200A}')
    || c == '\U{2028}' || c == '\U{2029}' || c == '\U{202F}' || c == '\U{205F}'
    || c == '\U{3000}' || c == '\U{FEFF}'
  }

  /** No whitespace at either end. */
  predicate Trimmed(s: string) {
    s == [] || (!IsSpace(s[0]) && !IsSpace(s[|s| - 1]))
  }

  /** `trimStart`: the suffix left after dropping the leading whitespace. */
  function TrimStart(s: string): (r: string)
    ensures |r| <= |s| && r == s[|s| - |r|..]
    ensures r == [] || !IsSpace(r[0])
    ensures forall i :: 0 <= i < |s| - |r| ==> IsSpace(s[i])
  {
    if s != [] && IsSpace(s[0]) then TrimStart(s[1..]) else s
  }

  /** `trimEnd`: the prefix left after dropping the trailing whitespace. */
  function TrimEnd(s: string): (r: string)
    ensures |r| <= |s| && r == s[..|r|]
    ensures r == [] || !IsSpace(r[|r| - 1])
    ensures forall i :: |r| <= i < |s| ==> IsSpace(s[i])
  {
    if s != [] && IsSpace(s[|s| - 1]) then TrimEnd(s[..|s| - 1]) else s
  }

  /** `trim`: whitespace removed at both ends (see TrimKeepsMiddle); an already trimmed string is left alone. */
  function Trim(s: string): (r: string)
    ensures Trimmed(r)
    ensures |r| <= |s|
    ensures forall c :: c in r ==> c in s
    ensures Trimmed(s) ==> r == s
  {
    var t := TrimStart(s);
    assert forall c :: c in t ==> c in s;
    TrimEnd(t)
  }

  /**
   * `trim` removes whitespace at the ends and only there: the result is the
   * run of the input that follows its leading whitespace and precedes its
   * trailing whitespace. With Trimmed(Trim(s)) this fixes the result.
   */
  lemma TrimKeepsMiddle(s: string)
    ensures var a := |s| - |TrimStart(s)|;
      && a + |Trim(s)| <= |s|
      && Trim(s) == s[a..a + |Trim(s)|]
      && (forall i :: 0 <= i < a ==> IsSpace(s[i]))
      && (forall i :: a + |Trim(s)| <= i < |s| ==> IsSpace(s[i]))
  {
    TrimIsSlice(s);
    TrimDropsOnlyTrailingSpace(s);
  }

  lemma TrimIsSlice(s: string)
    ensures var a := |s| - |TrimStart(s)|;
      && a + |Trim(s)| <= |s|
      && Trim(s) == s[a..a + |Trim(s)|]
  {
    var t := TrimStart(s);
    var a := |s| - |t|;
    assert Trim(s) == TrimEnd(t);
    SliceOfSuffix(s, a, |TrimEnd(t)|);
  }

  lemma TrimDropsOnlyTrailingSpace(s: string)
    ensures var a := |s| - |TrimStart(s)|;
      && a + |Trim(s)| <= |s|
      && (forall i :: a + |Trim(s)| <= i < |s| ==> IsSpace(s[i]))
  {
    var t := TrimStart(s);
    var a := |s| - |t|;
    var r := TrimEnd(t);
    assert Trim(s) == r;
    forall i | a + |r| <= i < |s| ensures IsSpace(s[i]) {
      SuffixIndex(s, a, i);
    }
  }

  lemma SliceOfSuffix(s: string, a: nat, n: nat)
    requires a + n <= |s|
    ensures s[a..][..n] == s[a..a + n]
  {
  }

  lemma SuffixIndex(s: string, a: nat, i: nat)
    requires a <= i < |s|
    ensures s[a..][i - a] == s[i]
  {
  }

  /** `s.split(sep)` for a one-character separator: at least one piece, none holding `sep`. */
  function Split(s: string, sep: char): (r: seq<string>)
    ensures |r| >= 1
    ensures forall piece :: piece in r ==> sep !in piece
  {
    if s == [] then [[]]
    else
      var rest := Split(s[1..], sep);
      if s[0] == sep then [[]] + rest
      else
        assert rest[0] in rest;
        [[s[0]] + rest[0]] + rest[1..]
  }

  /** `pieces.join(sep)` for a one-character separator. */
  function Join(pieces: seq<string>, sep: char): string {
    if pieces == [] then []
    else if |pieces| == 1 then pieces[0]
    else pieces[0] + [sep] + Join(pieces[1..], sep)
  }

  lemma {:induction false} SplitNoSeparator(s: string, sep: char)
    requires sep !in s
    ensures Split(s, sep) == [s]
  {
    if s != [] {
      SplitNoSeparator(s[1..], sep);
      assert [s[0]] + s[1..] == s;
    }
  }

  lemma {:induction false} SplitAfterPiece(a: string, b: string, sep: char)
    requires sep !in a
    ensures Split(a + [sep] + b, sep) == [a] + Split(b, sep)
  {
    if a == [] {
      assert a + [sep] + b == [sep] + b;
      assert ([sep] + b)[1..] == b;
    } else {
      var s := a + [sep] + b;
      assert s[1..] == a[1..] + [sep] + b;
      SplitAfterPiece(a[1..], b, sep);
      assert [a[0]] + a[1..] == a;
    }
  }

  /** Splitting a join gives back the pieces, provided no piece holds the separator. */
  lemma {:induction false} SplitJoin(pieces: seq<string>, sep: char)
    requires |pieces| >= 1
    requires forall piece :: piece in pieces ==> sep !in piece
    ensures Split(Join(pieces, sep), sep) == pieces
  {
    if |pieces| == 1 {
      SplitNoSeparator(pieces[0], sep);
    } else {
      assert pieces[0] in pieces;
      SplitAfterPiece(pieces[0], Join(pieces[1..], sep), sep);
      SplitJoin(pieces[1..], sep);
      assert [pieces[0]] + pieces[1..] == pieces;
    }
  }

  /** Joining the pieces of a split gives back the string. */
  lemma {:induction false} JoinSplit(s: string, sep: char)
    ensures Join(Split(s, sep), sep) == s
  {
    if s != [] {
      var rest := Split(s[1..], sep);
      JoinSplit(s[1..], sep);
      if s[0] == sep {
        assert ([[]] + rest)[1..] == rest;
        assert [sep] + s[1..] == s;
      } else {
        var head := [s[0]] + rest[0];
        var r := [head] + rest[1..];
        if |rest| == 1 {
          assert Join(r, sep) == head;
        } else {
          assert r[1..] == rest[1..];
          assert Join(rest, sep) == rest[0] + [sep] + Join(rest[1..], sep);
        }
        assert [s[0]] + s[1..] == s;
      }
    }
  }

  lemma {:induction false} SplitAvoids(s: string, sep: char, c: char)
    requires c !in s
    ensures forall piece :: piece in Split(s, sep) ==> c !in piece
  {
    if s != [] {
      assert forall x :: x in s[1..] ==> x in s;
      SplitAvoids(s[1..], sep, c);
      var rest := Split(s[1..], sep);
      if s[0] != sep {
        assert rest[0] in rest;
        assert forall piece :: piece in rest[1..] ==> piece in rest;
      }
    }
  }

  lemma {:induction false} JoinAvoids(pieces: seq<string>, sep: char, c: char)
    requires c != sep
    requires forall piece :: piece in pieces ==> c !in piece
    ensures c !in Join(pieces, sep)
  {
    if |pieces| > 1 {
      assert pieces[0] in pieces;
      assert forall piece :: piece in pieces[1..] ==> piece in pieces;
      JoinAvoids(pieces[1..], sep, c);
    }
  }

  lemma {:induction false} JoinSnoc(pieces: seq<string>, last: string, sep: char)
    requires |pieces| >= 1
    ensures Join(pieces + [last], sep) == Join(pieces, sep) + [sep] + last
  {
    if |pieces| > 1 {
      assert (pieces + [last])[1..] == pieces[1..] + [last];
      JoinSnoc(pieces[1..], last, sep);
    }
  }

  // ---------------------------------------------------------------------------
  // Lines

  /** A line as the sanitiser should leave it: no line break inside, no whitespace at either end. */
  predicate CleanLine(line: string) {
    '\n' !in line && '\r' !in line && Trimmed(line)
  }

  predicate AllClean(lines: seq<string>) {
    forall line :: line in lines ==> CleanLine(line)
  }

  predicate BlankPairAt(lines: seq<string>, i: int)
    requires 0 <= i < |lines| - 1
  {
    lines[i] == [] && lines[i + 1] == []
  }

  /** The last line (of a non-empty list). */
  function Last(lines: seq<string>): string
    requires |lines| >= 1
  {
    lines[|lines| - 1]
  }

  /** No two blank lines in a row. */
  predicate NoBlankRun(lines: seq<string>) {
    forall i :: 0 <= i < |lines| - 1 ==> !BlankPairAt(lines, i)
  }

  predicate TripleNewlineAt(s: string, i: int)
    requires 0 <= i <= |s| - 3
  {
    s[i] == '\n' && s[i + 1] == '\n' && s[i + 2] == '\n'
  }

  /** "Max 2 consecutive newlines". */
  predicate AtMostTwoNewlines(s: string) {
    forall i :: 0 <= i <= |s| - 3 ==> !TripleNewlineAt(s, i)
  }

  /** Output of the sanitiser: no carriage return, trimmed as a whole and line by line. */
  predicate CleanText(s: string) {
    '\r' !in s && Trimmed(s) && forall line :: line in Split(s, '\n') ==> Trimmed(line)
  }

  /** `lines.map(line => line.trim())`. */
  function TrimAll(lines: seq<string>): (r: seq<string>)
    ensures |r| == |lines|
    ensures forall i :: 0 <= i < |lines| ==> r[i] == Trim(lines[i])
  {
    seq(|lines|, i requires 0 <= i < |lines| => Trim(lines[i]))
  }

  lemma {:induction false} TrimAllClean(lines: seq<string>)
    requires forall line :: line in lines ==> '\n' !in line && '\r' !in line
    ensures AllClean(TrimAll(lines))
  {
    var r := TrimAll(lines);
    forall line | line in r ensures CleanLine(line) {
      var i :| 0 <= i < |r| && r[i] == line;
      assert lines[i] in lines;
    }
  }

  /** Blank lines at the front removed, keeping at least one line. */
  function DropLeadingBlank(lines: seq<string>): (r: seq<string>)
    requires |lines| >= 1
    ensures 1 <= |r| <= |lines| && r == lines[|lines| - |r|..]
  {
    if |lines| > 1 && lines[0] == [] then DropLeadingBlank(lines[1..]) else lines
  }

  /** Blank lines at the back removed, keeping at least one line. */
  function DropTrailingBlank(lines: seq<string>): (r: seq<string>)
    requires |lines| >= 1
    ensures 1 <= |r| <= |lines| && r == lines[..|r|]
  {
    if |lines| > 1 && lines[|lines| - 1] == [] then DropTrailingBlank(lines[..|lines| - 1]) else lines
  }

  lemma {:induction false} TrimStartJoin(lines: seq<string>)
    requires |lines| >= 1 && AllClean(lines)
    ensures TrimStart(Join(lines, '\n')) == Join(DropLeadingBlank(lines), '\n')
  {
    assert lines[0] in lines;
    if |lines| > 1 && lines[0] == [] {
      var rest := Join(lines[1..], '\n');
      assert Join(lines, '\n') == ['\n'] + rest;
      assert (['\n'] + rest)[1..] == rest;
      assert forall line :: line in lines[1..] ==> line in lines;
      TrimStartJoin(lines[1..]);
    }
  }

  lemma {:induction false} TrimEndJoin(lines: seq<string>)
    requires |lines| >= 1 && AllClean(lines)
    ensures TrimEnd(Join(lines, '\n')) == Join(DropTrailingBlank(lines), '\n')
  {
    var n := |lines|;
    assert lines[n - 1] in lines;
    if n > 1 && lines[n - 1] == [] {
      var init := lines[..n - 1];
      assert init + [lines[n - 1]] == lines;
      JoinSnoc(init, [], '\n');
      var front := Join(init, '\n');
      assert Join(lines, '\n') == front + ['\n'];
      assert (front + ['\n'])[..|front|] == front;
      assert forall line :: line in init ==> line in lines;
      TrimEndJoin(init);
    } else if n > 1 {
      var init := lines[..n - 1];
      assert init + [lines[n - 1]] == lines;
      JoinSnoc(init, lines[n - 1], '\n');
    }
  }

  lemma {:induction false} JoinHead(lines: seq<string>, sep: char)
    requires |lines| >= 1 && lines[0] != []
    ensures |Join(lines, sep)| >= 1 && Join(lines, sep)[0] == lines[0][0]
  {
  }

  lemma {:induction false} NoTripleInJoin(lines: seq<string>)
    requires |lines| >= 1
    requires forall i :: 0 <= i < |lines| ==> '\n' !in lines[i]
    requires NoBlankRun(lines)
    ensures AtMostTwoNewlines(Join(lines, '\n'))
  {
    if |lines| == 1 {
      var x := lines[0];
      forall i | 0 <= i <= |x| - 3 ensures !TripleNewlineAt(x, i) {
        assert x[i] in x;
      }
    } else {
      var l := lines[0];
      var rest := lines[1..];
      var j := Join(rest, '\n');
      var x := Join(lines, '\n');
      assert x == l + ['\n'] + j;
      assert forall i :: 0 <= i < |rest| ==> rest[i] == lines[i + 1];
      assert NoBlankRun(rest) by {
        forall i | 0 <= i < |rest| - 1 ensures !BlankPairAt(rest, i) {
          assert !BlankPairAt(lines, i + 1);
        }
      }
      NoTripleInJoin(rest);
      forall i | 0 <= i <= |x| - 3 ensures !TripleNewlineAt(x, i) {
        if i < |l| {
          assert x[i] == l[i];
          assert l[i] in l;
        } else if i == |l| {
          assert x[i + 1] == j[0] && x[i + 2] == j[1];
          if rest[0] != [] {
            JoinHead(rest, '\n');
            assert rest[0][0] in rest[0];
          } else {
            assert |rest| >= 2;
            assert !BlankPairAt(lines, 1);
            assert rest[1] != [];
            assert j == [] + ['\n'] + Join(rest[1..], '\n');
            JoinHead(rest[1..], '\n');
            assert rest[1][0] in rest[1];
          }
        } else {
          var k := i - |l| - 1;
          assert x[i] == j[k] && x[i + 1] == j[k + 1] && x[i + 2] == j[k + 2];
          assert !TripleNewlineAt(j, k);
        }
      }
    }
  }

  lemma {:induction false} AtMostTwoNewlinesSlice(s: string, i: int, n: int)
    requires 0 <= i <= i + n <= |s|
    requires AtMostTwoNewlines(s)
    ensures AtMostTwoNewlines(s[i..i + n])
  {
    var t := s[i..i + n];
    forall k | 0 <= k <= |t| - 3 ensures !TripleNewlineAt(t, k) {
      assert !TripleNewlineAt(s, i + k);
    }
  }

  lemma {:induction false} NoBlankRunSlice(lines: seq<string>, a: int, b: int)
    requires 0 <= a <= b <= |lines|
    requires NoBlankRun(lines)
    ensures NoBlankRun(lines[a..b])
  {
    var part := lines[a..b];
    forall i | 0 <= i < |part| - 1 ensures !BlankPairAt(part, i) {
      assert !BlankPairAt(lines, a + i);
    }
  }

  /** Trimming the join of clean lines is the join of the lines from the first to the last non-blank one. */
  lemma {:induction false} TrimJoin(lines: seq<string>)
    requires |lines| >= 1 && AllClean(lines)
    ensures Trim(Join(lines, '\n')) == Join(DropTrailingBlank(DropLeadingBlank(lines)), '\n')
  {
    var front := DropLeadingBlank(lines);
    assert forall line :: line in front ==> line in lines;
    TrimStartJoin(lines);
    TrimEndJoin(front);
  }

  /** The join of clean lines splits back into those lines, so every line of it is trimmed. */
  lemma {:induction false} JoinCleanLines(lines: seq<string>)
    requires |lines| >= 1 && AllClean(lines)
    ensures '\r' !in Join(lines, '\n')
    ensures forall line :: line in Split(Join(lines, '\n'), '\n') ==> Trimmed(line)
  {
    SplitJoin(lines, '\n');
    JoinAvoids(lines, '\n', '\r');
  }

  /** Trimming the join of clean lines gives clean text. */
  lemma {:induction false} TrimJoinClean(lines: seq<string>)
    requires |lines| >= 1 && AllClean(lines)
    ensures CleanText(Trim(Join(lines, '\n')))
  {
    var middle := DropTrailingBlank(DropLeadingBlank(lines));
    assert forall line :: line in middle ==> line in lines;
    TrimJoin(lines);
    JoinCleanLines(middle);
  }

  /** The lines kept by both drops are a run of consecutive lines of the input. */
  lemma MiddleIsSlice(lines: seq<string>) returns (a: nat)
    requires |lines| >= 1
    ensures a + |DropTrailingBlank(DropLeadingBlank(lines))| <= |lines|
    ensures DropTrailingBlank(DropLeadingBlank(lines)) == lines[a..a + |DropTrailingBlank(DropLeadingBlank(lines))|]
  {
    var front := DropLeadingBlank(lines);
    a := |lines| - |front|;
  }

  /** The kept lines hold no line break and no run of blank lines when the input lines do not. */
  lemma MiddleClean(lines: seq<string>)
    requires |lines| >= 1 && NoBlankRun(lines)
    requires forall i :: 0 <= i < |lines| ==> '\n' !in lines[i]
    ensures var middle := DropTrailingBlank(DropLeadingBlank(lines));
      && (forall i :: 0 <= i < |middle| ==> '\n' !in middle[i])
      && NoBlankRun(middle)
  {
    var a := MiddleIsSlice(lines);
    CleanRun(lines, DropTrailingBlank(DropLeadingBlank(lines)), a);
  }

  lemma CleanRun(lines: seq<string>, run: seq<string>, a: nat)
    requires a + |run| <= |lines| && run == lines[a..a + |run|]
    requires NoBlankRun(lines)
    requires forall i :: 0 <= i < |lines| ==> '\n' !in lines[i]
    ensures forall i :: 0 <= i < |run| ==> '\n' !in run[i]
    ensures NoBlankRun(run)
  {
    assert forall i :: 0 <= i < |run| ==> run[i] == lines[a + i];
    NoBlankRunSlice(lines, a, a + |run|);
  }

  /** ... and that text keeps to two newlines in a row when the lines had no run of blank lines. */
  lemma {:induction false} TrimJoinAtMostTwoNewlines(lines: seq<string>)
    requires |lines| >= 1 && AllClean(lines)
    requires NoBlankRun(lines)
    ensures AtMostTwoNewlines(Trim(Join(lines, '\n')))
  {
    var middle := DropTrailingBlank(DropLeadingBlank(lines));
    forall i | 0 <= i < |lines| ensures '\n' !in lines[i] {
      assert lines[i] in lines;
    }
    MiddleClean(lines);
    NoTripleInJoin(middle);
    TrimJoin(lines);
  }

  // ---------------------------------------------------------------------------
  // sanitizeText

  /** `.replace(/\r\n/g, '\n')`: left to right, non-overlapping. */
  function ReplaceCrLf(s: string): (r: string)
    ensures '\r' !in s ==> r == s
  {
    if |s| < 2 then s
    else if s[0] == '\r' && s[1] == '\n' then "\n" + ReplaceCrLf(s[2..])
    else
      assert '\r' !in s ==> '\r' !in s[1..];
      [s[0]] + ReplaceCrLf(s[1..])
  }

  /** `.replace(/\r/g, '\n')`. */
  function ReplaceCr(s: string): (r: string)
    ensures |r| == |s| && '\r' !in r
    ensures '\r' !in s ==> r == s
  {
    if s == [] then []
    else
      assert '\r' !in s ==> '\r' !in s[1..];
      [if s[0] == '\r' then '\n' else s[0]] + ReplaceCr(s[1..])
  }

  /**
   * One pass from the left in which every line break, whether "\r\n", a lone
   * "\r" or "\n", is read as a single "\n"; every other character is kept.
   */
  function UnifyLineBreaks(s: string): (r: string)
    ensures '\r' !in r && |r| <= |s|
    decreases |s|
  {
    if s == [] then []
    else if s[0] == '\r' then "\n" + UnifyLineBreaks(if |s| >= 2 && s[1] == '\n' then s[2..] else s[1..])
    else [s[0]] + UnifyLineBreaks(s[1..])
  }

  /** The two replacements in a row read every line break as one newline, like the single pass. */
  lemma {:induction false} ReplacementsUnifyLineBreaks(s: string)
    ensures ReplaceCr(ReplaceCrLf(s)) == UnifyLineBreaks(s)
    decreases |s|
  {
    if |s| == 1 {
      assert s[1..] == [];
    } else if |s| >= 2 && s[0] == '\r' && s[1] == '\n' {
      var t := ReplaceCrLf(s[2..]);
      ReplacementsUnifyLineBreaks(s[2..]);
      assert ("\n" + t)[1..] == t;
    } else if |s| >= 2 {
      var t := ReplaceCrLf(s[1..]);
      ReplacementsUnifyLineBreaks(s[1..]);
      assert ([s[0]] + t)[1..] == t;
    }
  }

  /**
   * Both newline replacements: each "\r\n" and each lone "\r" becomes one
   * "\n", so no carriage return survives, and text without one is unchanged.
   */
  function NormalizeNewlines(s: string): (r: string)
    ensures '\r' !in r
    ensures '\r' !in s ==> r == s
  {
    ReplaceCr(ReplaceCrLf(s))
  }

  /** The two replacements of the sanitiser are the single pass that reads every line break as one newline. */
  lemma NormalizeNewlinesUnifies(s: string)
    ensures NormalizeNewlines(s) == UnifyLineBreaks(s)
  {
    ReplacementsUnifyLineBreaks(s);
  }

  /** A lone carriage return and a carriage return before a newline both become one newline. */
  lemma NormalizeExamples(lone: string, pair: string)
    requires lone == "a\rb" && pair == "a\r\nb"
    ensures NormalizeNewlines(lone) == "a\nb"
    ensures NormalizeNewlines(pair) == "a\nb"
  {
    NormalizeNewlinesUnifies(lone);
    NormalizeNewlinesUnifies(pair);
    var b := "b";
    assert b[1..] == [];
    assert UnifyLineBreaks(b) == b;
    var cr, crlf := lone[1..], pair[1..];
    assert cr[1..] == b && crlf[2..] == b;
    assert UnifyLineBreaks(cr) == "\n" + b;
    assert UnifyLineBreaks(crlf) == "\n" + b;
  }

  /** Length of the run of newlines at the front. */
  function LeadingNewlines(s: string): (k: nat)
    ensures k <= |s|
    ensures forall i :: 0 <= i < k ==> s[i] == '\n'
    ensures k < |s| ==> s[k] != '\n'
  {
    if s != [] && s[0] == '\n' then 1 + LeadingNewlines(s[1..]) else 0
  }

  /** `.replace(/\n{3,}/g, '\n\n')`: every maximal run of three or more newlines becomes two. */
  function CollapseNewlines(s: string): (r: string)
    ensures forall c :: c in r ==> c == '\n' || c in s
    decreases |s|
  {
    if s == [] then []
    else if s[0] != '\n' then
      assert forall c :: c in s[1..] ==> c in s;
      [s[0]] + CollapseNewlines(s[1..])
    else
      var k := LeadingNewlines(s);
      assert forall c :: c in s[k..] ==> c in s;
      (if k >= 3 then "\n\n" else s[..k]) + CollapseNewlines(s[k..])
  }

  /**
   * `sanitizeText` on a string, exactly as written: the newline runs are
   * collapsed BEFORE the lines are trimmed. The result is clean text, but a run
   * of lines holding only whitespace still yields three or more newlines in a row
   * (see SanitizeAsWrittenKeepsTripleNewline). Every non-blank line of the input
   * survives, trimmed and in order (see SanitizeAsWrittenKeepsLines).
   */
  function SanitizeTextAsWritten(s: string): (r: string)
    ensures CleanText(r)
  {
    var collapsed := CollapseNewlines(NormalizeNewlines(s));
    var pieces := Split(collapsed, '\n');
    SplitAvoids(collapsed, '\n', '\r');
    TrimAllClean(pieces);
    TrimJoinClean(TrimAll(pieces));
    Trim(Join(TrimAll(pieces), '\n'))
  }

  lemma NoBlankRunTail(lines: seq<string>)
    requires |lines| >= 1
    ensures NoBlankRun(lines) ==> NoBlankRun(lines[1..])
  {
    if NoBlankRun(lines) {
      NoBlankRunSlice(lines, 1, |lines|);
      assert lines[1..|lines|] == lines[1..];
    }
  }

  /**
   * Squeezes every run of blank lines to one blank line: the first line is
   * kept, only input lines appear, and no two blank lines are left in a row.
   * SqueezeKeepsNonBlank, SqueezeKeepsLast and SqueezeKeepsSingleBlanks say
   * what is kept.
   */
  function SqueezeBlankLines(lines: seq<string>): (r: seq<string>)
    ensures |lines| >= 1 ==> |r| >= 1 && r[0] == lines[0]
    ensures forall line :: line in r ==> line in lines
    ensures NoBlankRun(r)
  {
    if |lines| <= 1 then lines
    else if lines[0] == [] && lines[1] == [] then
      assert forall line :: line in lines[1..] ==> line in lines;
      SqueezeBlankLines(lines[1..])
    else
      var rest := SqueezeBlankLines(lines[1..]);
      var r := [lines[0]] + rest;
      assert forall line :: line in lines[1..] ==> line in lines;
      assert forall i :: 0 <= i < |r| - 1 ==> !BlankPairAt(r, i) by {
        forall i | 0 <= i < |r| - 1 ensures !BlankPairAt(r, i) {
          if i > 0 {
            assert !BlankPairAt(rest, i - 1);
          }
        }
      }
      r
  }

  /** Every non-blank line is kept, in order. */
  lemma {:induction false} SqueezeKeepsNonBlank(lines: seq<string>)
    ensures DropEmpty(SqueezeBlankLines(lines)) == DropEmpty(lines)
  {
    if |lines| > 1 {
      var rest := SqueezeBlankLines(lines[1..]);
      SqueezeKeepsNonBlank(lines[1..]);
      if !(lines[0] == [] && lines[1] == []) {
        var r := [lines[0]] + rest;
        assert r[1..] == rest;
      }
    }
  }

  /** The last line is kept. */
  lemma {:induction false} SqueezeKeepsLast(lines: seq<string>)
    requires |lines| >= 1
    ensures Last(SqueezeBlankLines(lines)) == Last(lines)
  {
    if |lines| > 1 {
      SqueezeKeepsLast(lines[1..]);
    }
  }

  /** Lines with no two blank ones in a row are left as they are. */
  lemma {:induction false} SqueezeKeepsSingleBlanks(lines: seq<string>)
    requires NoBlankRun(lines)
    ensures SqueezeBlankLines(lines) == lines
  {
    if |lines| > 1 {
      assert !BlankPairAt(lines, 0);
      NoBlankRunTail(lines);
      SqueezeKeepsSingleBlanks(lines[1..]);
    }
  }

  /**
   * `sanitizeText` on a string as its comment intends ("max 2 consecutive
   * newlines"): lines are trimmed first, then runs of blank lines are squeezed
   * to one, which is what collapsing the newline runs after the trimming does.
   * The result is clean text with at most two newlines in a row, and every
   * non-blank line of the input survives, trimmed and in order (see
   * SanitizeTextKeepsLines).
   */
  function SanitizeText(s: string): (r: string)
    ensures CleanText(r)
    ensures AtMostTwoNewlines(r)
  {
    var normalized := NormalizeNewlines(s);
    var pieces := Split(normalized, '\n');
    SplitAvoids(normalized, '\n', '\r');
    TrimAllClean(pieces);
    var lines := SqueezeBlankLines(TrimAll(pieces));
    TrimJoinClean(lines);
    TrimJoinAtMostTwoNewlines(lines);
    Trim(Join(lines, '\n'))
  }

  lemma {:induction false} JoinAppend(xs: seq<string>, ys: seq<string>, sep: char)
    requires |xs| >= 1 && |ys| >= 1
    ensures Join(xs + ys, sep) == Join(xs, sep) + [sep] + Join(ys, sep)
  {
    if |xs| == 1 {
      assert (xs + ys)[1..] == ys;
    } else {
      assert (xs + ys)[1..] == xs[1..] + ys;
      JoinAppend(xs[1..], ys, sep);
    }
  }

  /** A blank first or last line puts a newline at that end of the join. */
  lemma JoinBlankEnds(lines: seq<string>)
    requires |lines| >= 2
    ensures var j := Join(lines, '\n');
      && |j| >= 1
      && (lines[0] == [] ==> j[0] == '\n')
      && (lines[|lines| - 1] == [] ==> j[|j| - 1] == '\n')
  {
    var n := |lines|;
    var init := lines[..n - 1];
    assert init + [lines[n - 1]] == lines;
    JoinSnoc(init, lines[n - 1], '\n');
  }

  /** Two blank lines in a row between two other lines join into three newlines in a row. */
  lemma JoinInnerBlankPair(lines: seq<string>, i: int)
    requires 0 <= i < |lines| - 1
    ensures 0 < i && i + 2 < |lines| && BlankPairAt(lines, i) ==> !AtMostTwoNewlines(Join(lines, '\n'))
  {
    if 0 < i && i + 2 < |lines| && BlankPairAt(lines, i) {
      var before, after := lines[..i], lines[i + 2..];
      var pair: seq<string> := [[], []];
      assert lines == before + (pair + after);
      JoinAppend(before, pair + after, '\n');
      assert (pair + after)[1..] == [[]] + after;
      assert ([[]] + after)[1..] == after;
      var j := Join(lines, '\n');
      var k := |Join(before, '\n')|;
      assert j == Join(before, '\n') + ['\n'] + (['\n'] + (['\n'] + Join(after, '\n')));
      assert TripleNewlineAt(j, k);
    }
  }

  /** Text with no whitespace at its ends and no three newlines in a row has no two blank lines in a row. */
  lemma SplitNoBlankRun(s: string)
    requires Trimmed(s) && AtMostTwoNewlines(s)
    ensures NoBlankRun(Split(s, '\n'))
  {
    var lines := Split(s, '\n');
    JoinSplit(s, '\n');
    forall i | 0 <= i < |lines| - 1 ensures !BlankPairAt(lines, i) {
      JoinBlankEnds(lines);
      JoinInnerBlankPair(lines, i);
    }
  }

  /** Clean text with at most two newlines in a row passes the sanitiser unchanged. */
  lemma SanitizeTextKeepsCleanText(s: string)
    requires CleanText(s) && AtMostTwoNewlines(s)
    ensures SanitizeText(s) == s
  {
    var lines := Split(s, '\n');
    assert NormalizeNewlines(s) == s;
    assert TrimAll(lines) == lines by {
      forall i | 0 <= i < |lines| ensures TrimAll(lines)[i] == lines[i] {
        assert lines[i] in lines;
      }
    }
    SplitNoBlankRun(s);
    SqueezeKeepsSingleBlanks(lines);
    JoinSplit(s, '\n');
  }

  /** The sanitiser as intended leaves its own output alone. */
  lemma SanitizeTextIdempotent(s: string)
    ensures SanitizeText(SanitizeText(s)) == SanitizeText(s)
  {
    SanitizeTextKeepsCleanText(SanitizeText(s));
  }

  /** A string that does not start with a newline keeps its first character through the collapse. */
  lemma CollapseHead(s: string)
    requires s != [] && s[0] != '\n'
    ensures CollapseNewlines(s) != [] && CollapseNewlines(s)[0] == s[0]
  {
  }

  /**
   * The collapse on its own keeps its promise: its output never holds three
   * newlines in a row. The sanitiser as written fails only because trimming
   * the lines afterwards empties lines between newlines that survived it.
   */
  lemma {:induction false} CollapseLeavesShortRuns(s: string)
    ensures AtMostTwoNewlines(CollapseNewlines(s))
    decreases |s|
  {
    if s != [] {
      var r := CollapseNewlines(s);
      if s[0] != '\n' {
        var rest := CollapseNewlines(s[1..]);
        CollapseLeavesShortRuns(s[1..]);
        assert r == [s[0]] + rest;
        forall i | 0 <= i <= |r| - 3 ensures !TripleNewlineAt(r, i) {
          if i > 0 {
            assert !TripleNewlineAt(rest, i - 1);
          }
        }
      } else {
        var k := LeadingNewlines(s);
        var prefix := if k >= 3 then "\n\n" else s[..k];
        var rest := CollapseNewlines(s[k..]);
        CollapseLeavesShortRuns(s[k..]);
        assert r == prefix + rest;
        assert |prefix| <= 2;
        if k < |s| {
          CollapseHead(s[k..]);
        }
        forall i | 0 <= i <= |r| - 3 ensures !TripleNewlineAt(r, i) {
          if i >= |prefix| {
            assert r[i] == rest[i - |prefix|] && r[i + 1] == rest[i - |prefix| + 1] && r[i + 2] == rest[i - |prefix| + 2];
            assert !TripleNewlineAt(rest, i - |prefix|);
          } else {
            assert r[|prefix|] == rest[0];
          }
        }
      }
    }
  }

  lemma {:induction false} TrimDropsLeadingSpace(s: string)
    requires s != [] && IsSpace(s[0])
    ensures Trim(s) == Trim(s[1..])
  {
  }

  /** Text with no run of three newlines passes the collapse unchanged. */
  lemma {:induction false} CollapseKeepsShortRuns(s: string)
    requires AtMostTwoNewlines(s)
    ensures CollapseNewlines(s) == s
    decreases |s|
  {
    if s != [] {
      if s[0] != '\n' {
        AtMostTwoNewlinesSlice(s, 1, |s| - 1);
        assert s[1..1 + (|s| - 1)] == s[1..];
        CollapseKeepsShortRuns(s[1..]);
        assert [s[0]] + s[1..] == s;
      } else {
        var k := LeadingNewlines(s);
        if |s| >= 3 {
          assert !TripleNewlineAt(s, 0);
        }
        assert k < 3;
        AtMostTwoNewlinesSlice(s, k, |s| - k);
        assert s[k..k + (|s| - k)] == s[k..];
        CollapseKeepsShortRuns(s[k..]);
        assert s[..k] + s[k..] == s;
      }
    }
  }

  lemma JoinFourLines(a: string, b: string, c: string, d: string, sep: char)
    ensures Join([a, b, c, d], sep) == a + [sep] + b + [sep] + c + [sep] + d
  {
    assert [a, b, c, d][1..] == [b, c, d];
    JoinThreeLines(b, c, d, sep);
  }

  lemma JoinThreeLines(a: string, b: string, c: string, sep: char)
    ensures Join([a, b, c], sep) == a + [sep] + b + [sep] + c
  {
    assert [a, b, c][1..] == [b, c];
    assert [b, c][1..] == [c];
    assert Join([c], sep) == c;
    assert Join([b, c], sep) == b + [sep] + c;
  }

  /** The input of the counterexample below, taken apart into lines. */
  lemma CounterexampleLines(s: string)
    requires s == "a\n \n \nb"
    ensures NormalizeNewlines(s) == s
    ensures Split(s, '\n') == ["a", " ", " ", "b"]
    ensures TrimAll(Split(s, '\n')) == ["a", "", "", "b"]
  {
    CounterexampleSplit(s);
    SpacedLinesTrimmed(Split(s, '\n'));
    assert '\r' !in s;
  }

  lemma CounterexampleSplit(s: string)
    requires s == "a\n \n \nb"
    ensures Split(s, '\n') == ["a", " ", " ", "b"]
  {
    var a, sp, b := "a", " ", "b";
    var lines := [a, sp, sp, b];
    JoinFourLines(a, sp, sp, b, '\n');
    assert Join(lines, '\n') == s;
    SplitJoin(lines, '\n');
  }

  /** Trimming the lines "a", " ", " ", "b" empties the two middle ones. */
  lemma SpacedLinesTrimmed(lines: seq<string>)
    requires lines == ["a", " ", " ", "b"]
    ensures TrimAll(lines) == ["a", "", "", "b"]
  {
    var a, sp, b := "a", " ", "b";
    TrimDropsLeadingSpace(sp);
    assert sp[1..] == [];
    assert Trimmed(a) && Trimmed(b);
    assert lines[1..] == [sp, sp, b];
    assert lines[2..] == [sp, b];
  }

  /** Three lines with an empty middle one, joined: already trimmed, and split back the same. */
  lemma BlankLineLines(j: string)
    requires j == "a\n\nb"
    ensures Join(["a", "", "b"], '\n') == j
    ensures Trim(j) == j
    ensures TrimAll(Split(j, '\n')) == ["a", "", "b"]
  {
    var a, e, b := "a", "", "b";
    var lines := [a, e, b];
    JoinThreeLines(a, e, b, '\n');
    assert Join(lines, '\n') == j;
    SplitJoin(lines, '\n');
    assert Trimmed(j);
    assert Trimmed(a) && Trimmed(e) && Trimmed(b);
    assert TrimAll(lines) == lines;
  }

  /** The input with blank lines holding a space has no run of three newlines. */
  lemma CounterexampleInputShortRuns(s: string)
    requires s == "a\n \n \nb"
    ensures AtMostTwoNewlines(s)
  {
    forall i | 0 <= i <= |s| - 3 ensures !TripleNewlineAt(s, i) {
      assert s[i] == ' ' || s[i + 1] == ' ' || s[i + 2] == ' ';
    }
  }

  /** The sanitiser as written is the trimmed join of the trimmed lines of the collapsed text. */
  lemma AsWrittenFromLines(s: string, lines: seq<string>)
    requires TrimAll(Split(CollapseNewlines(NormalizeNewlines(s)), '\n')) == lines
    ensures SanitizeTextAsWritten(s) == Trim(Join(lines, '\n'))
  {
  }

  /** Joining the lines "a", "", "", "b" gives a trimmed text with three newlines in a row. */
  lemma FourLinesJoined(out: string)
    requires out == "a\n\n\nb"
    ensures Trim(Join(["a", "", "", "b"], '\n')) == out
  {
    var a, e, b := "a", "", "b";
    JoinFourLines(a, e, e, b, '\n');
    assert Join([a, e, e, b], '\n') == out;
    assert Trimmed(out);
  }

  /** The output of the sanitiser as written on that input: three newlines in a row. */
  lemma AsWrittenOnCounterexample(s: string)
    requires s == "a\n \n \nb"
    ensures SanitizeTextAsWritten(s) == "a\n\n\nb"
  {
    CounterexampleLines(s);
    CounterexampleInputShortRuns(s);
    CollapseKeepsShortRuns(s);
    AsWrittenFromLines(s, ["a", "", "", "b"]);
    FourLinesJoined("a\n\n\nb");
  }

  /** The collapse turns the three newlines of that output into two. */
  lemma CollapseOutput(out: string)
    requires out == "a\n\n\nb"
    ensures NormalizeNewlines(out) == out
    ensures !AtMostTwoNewlines(out)
    ensures CollapseNewlines(out) == "a\n\nb"
  {
    assert TripleNewlineAt(out, 1);
    var tail := out[1..];
    assert tail[0] == '\n' && tail[1] == '\n' && tail[2] == '\n' && tail[3] == 'b';
    var k := LeadingNewlines(tail);
    assert k == 3;
    var b := tail[3..];
    assert b == "b";
    assert CollapseNewlines(b) == b;
    assert CollapseNewlines(tail) == "\n\n" + b;
    assert out == [out[0]] + tail;
  }

  /** Sanitising the counterexample's output again removes the third newline. */
  lemma AsWrittenOnOutput(out: string)
    requires out == "a\n\n\nb"
    ensures SanitizeTextAsWritten(out) == "a\n\nb"
  {
    CollapseOutput(out);
    BlankLineLines("a\n\nb");
  }

  /**
   * The comment's promise fails for the code as written: a blank line holding a
   * space on each side of a line break survives the collapse and is emptied
   * only afterwards, leaving three newlines in a row; sanitising the output
   * again changes it, so the sanitiser is not idempotent either.
   */
  lemma SanitizeAsWrittenKeepsTripleNewline(s: string)
    requires s == "a\n \n \nb"
    ensures !AtMostTwoNewlines(SanitizeTextAsWritten(s))
    ensures SanitizeTextAsWritten(SanitizeTextAsWritten(s)) != SanitizeTextAsWritten(s)
  {
    AsWrittenOnCounterexample(s);
    CollapseOutput("a\n\n\nb");
    AsWrittenOnOutput("a\n\n\nb");
    assert |"a\n\nb"| != |"a\n\n\nb"|;
  }

  lemma SqueezeExample()
    ensures SqueezeBlankLines(["a", "", "", "b"]) == ["a", "", "b"]
  {
    assert ["a", "", "", "b"][1..] == ["", "", "b"];
    assert ["", "", "b"][1..] == ["", "b"];
    assert ["", "b"][1..] == ["b"];
    assert SqueezeBlankLines(["", "b"]) == ["", "b"];
  }

  /** The intended sanitiser turns the same input into a single blank line. */
  lemma SanitizeTextSqueezesBlankLines(s: string)
    requires s == "a\n \n \nb"
    ensures SanitizeText(s) == "a\n\nb"
  {
    CounterexampleLines(s);
    SqueezeExample();
    BlankLineLines("a\n\nb");
  }

  // ---------------------------------------------------------------------------
  // What the sanitisers keep

  /** `k` empty pieces. */
  function Blanks(k: nat): (r: seq<string>)
    ensures |r| == k
  {
    if k == 0 then [] else [[]] + Blanks(k - 1)
  }

  lemma {:induction false} DropEmptyBlanks(k: nat, rest: seq<string>)
    ensures DropEmpty(Blanks(k) + rest) == DropEmpty(rest)
  {
    if k > 0 {
      assert Blanks(k) + rest == [[]] + (Blanks(k - 1) + rest);
      assert (Blanks(k) + rest)[1..] == Blanks(k - 1) + rest;
      DropEmptyHead(Blanks(k) + rest);
      assert DropEmpty(Blanks(k) + rest) == [] + DropEmpty(Blanks(k - 1) + rest);
      DropEmptyBlanks(k - 1, rest);
    } else {
      assert Blanks(k) + rest == rest;
    }
  }

  /** `m` newlines. */
  function Newlines(m: nat): (r: string)
    ensures |r| == m
  {
    if m == 0 then [] else "\n" + Newlines(m - 1)
  }

  /** Each newline at the front of a text is an empty piece of its split. */
  lemma {:induction false} SplitNewlines(m: nat, y: string)
    ensures Split(Newlines(m) + y, '\n') == Blanks(m) + Split(y, '\n')
  {
    if m > 0 {
      var s := Newlines(m) + y;
      assert s[0] == '\n';
      assert s[1..] == Newlines(m - 1) + y;
      SplitNewlines(m - 1, y);
      assert Split(s, '\n') == [[]] + Split(s[1..], '\n');
      assert Blanks(m) + Split(y, '\n') == [[]] + (Blanks(m - 1) + Split(y, '\n'));
    } else {
      assert Newlines(m) + y == y;
      assert Blanks(m) + Split(y, '\n') == Split(y, '\n');
    }
  }

  /** A text is its run of leading newlines followed by the rest. */
  lemma {:induction false} LeadingNewlinesFront(s: string)
    ensures s == Newlines(LeadingNewlines(s)) + s[LeadingNewlines(s)..]
  {
    if s != [] && s[0] == '\n' {
      LeadingNewlinesFront(s[1..]);
      assert s[1..][LeadingNewlines(s[1..])..] == s[LeadingNewlines(s)..];
      assert s == [s[0]] + s[1..];
    }
  }

  /** The collapse of a text that starts with a newline: its run, cut to two, then the collapse of the rest. */
  lemma CollapseRun(s: string)
    requires s != [] && s[0] == '\n'
    ensures var k := LeadingNewlines(s);
      CollapseNewlines(s) == Newlines(if k >= 3 then 2 else k) + CollapseNewlines(s[k..])
  {
    var k := LeadingNewlines(s);
    LeadingNewlinesFront(s);
    assert s[..k] == Newlines(k);
    assert "\n\n" == Newlines(2);
  }

  /** The split of a text that starts with a character other than a newline: that character opens the first piece. */
  lemma SplitOnChar(c: char, y: string)
    requires c != '\n'
    ensures Split([c] + y, '\n') == [[c] + Split(y, '\n')[0]] + Split(y, '\n')[1..]
  {
    assert ([c] + y)[1..] == y;
  }

  /**
   * The collapse changes the split of a text only by dropping empty pieces: the
   * first piece is the same, and the later pieces agree once the empty ones are dropped.
   */
  predicate CollapseAgrees(s: string) {
    && Split(CollapseNewlines(s), '\n')[0] == Split(s, '\n')[0]
    && DropEmpty(Split(CollapseNewlines(s), '\n')[1..]) == DropEmpty(Split(s, '\n')[1..])
  }

  lemma {:induction false} CollapseSplit(s: string)
    ensures CollapseAgrees(s)
    decreases |s|
  {
    if s != [] {
      if s[0] != '\n' {
        CollapseSplit(s[1..]);
        CollapseStepChar(s);
      } else {
        CollapseSplit(s[LeadingNewlines(s)..]);
        CollapseStepRun(s);
      }
    }
  }

  lemma CollapseStepChar(s: string)
    requires s != [] && s[0] != '\n'
    requires CollapseAgrees(s[1..])
    ensures CollapseAgrees(s)
  {
    assert [s[0]] + s[1..] == s;
    assert CollapseNewlines(s) == [s[0]] + CollapseNewlines(s[1..]);
    SplitOnChar(s[0], s[1..]);
    SplitOnChar(s[0], CollapseNewlines(s[1..]));
  }

  lemma CollapseStepRun(s: string)
    requires s != [] && s[0] == '\n'
    requires CollapseAgrees(s[LeadingNewlines(s)..])
    ensures CollapseAgrees(s)
  {
    var k := LeadingNewlines(s);
    var t := s[k..];
    var ct := CollapseNewlines(t);
    var m := if k >= 3 then 2 else k;
    CollapseRun(s);
    LeadingNewlinesFront(s);
    SplitNewlines(k, t);
    SplitNewlines(m, ct);
    BlanksAgree(k, m, Split(t, '\n'), Split(ct, '\n'));
  }

  /** Runs of one or more empty pieces in front of two splits that agree leave them agreeing. */
  lemma BlanksAgree(k: nat, m: nat, x: seq<string>, y: seq<string>)
    requires k >= 1 && m >= 1 && |x| >= 1 && |y| >= 1
    requires y[0] == x[0] && DropEmpty(y[1..]) == DropEmpty(x[1..])
    ensures (Blanks(m) + y)[0] == (Blanks(k) + x)[0]
    ensures DropEmpty((Blanks(m) + y)[1..]) == DropEmpty((Blanks(k) + x)[1..])
  {
    assert Blanks(k) + x == [[]] + (Blanks(k - 1) + x);
    assert Blanks(m) + y == [[]] + (Blanks(m - 1) + y);
    DropEmptyBlanks(k - 1, x);
    DropEmptyBlanks(m - 1, y);
    DropEmptyHead(x);
    DropEmptyHead(y);
  }

  /** Dropping the empty items looks at the first item and at what is left of the rest. */
  lemma DropEmptyHead(items: seq<string>)
    requires |items| >= 1
    ensures DropEmpty(items) == (if items[0] == [] then [] else [items[0]]) + DropEmpty(items[1..])
  {
  }

  /** The collapse keeps the non-empty pieces of the split, in order. */
  lemma CollapseKeepsPieces(s: string)
    ensures DropEmpty(Split(CollapseNewlines(s), '\n')) == DropEmpty(Split(s, '\n'))
  {
    CollapseSplit(s);
    DropEmptyHead(Split(s, '\n'));
    DropEmptyHead(Split(CollapseNewlines(s), '\n'));
  }

  /** Empty pieces trim to nothing, so dropping them before trimming changes nothing after it. */
  lemma {:induction false} DropEmptyTrimAll(items: seq<string>)
    ensures DropEmpty(TrimAll(DropEmpty(items))) == DropEmpty(TrimAll(items))
  {
    if items != [] {
      var x, rest := items[0], items[1..];
      assert [x] + rest == items;
      DropEmptyTrimAll(rest);
      TrimAllCons(x, rest);
      TrimAllOne(x);
      DropEmptyAppend(TrimAll([x]), TrimAll(rest));
      DropEmptyOne(Trim(x));
      DropEmptyHead(items);
      if x != [] {
        TrimAllCons(x, DropEmpty(rest));
        DropEmptyAppend(TrimAll([x]), TrimAll(DropEmpty(rest)));
      } else {
        assert Trimmed(x);
      }
    }
  }

  lemma {:induction false} DropLeadingBlankKeeps(lines: seq<string>)
    requires |lines| >= 1
    ensures DropEmpty(DropLeadingBlank(lines)) == DropEmpty(lines)
  {
    if |lines| > 1 && lines[0] == [] {
      DropLeadingBlankKeeps(lines[1..]);
      DropEmptyHead(lines);
    }
  }

  lemma {:induction false} DropTrailingBlankKeeps(lines: seq<string>)
    requires |lines| >= 1
    ensures DropEmpty(DropTrailingBlank(lines)) == DropEmpty(lines)
  {
    var n := |lines|;
    if n > 1 && lines[n - 1] == [] {
      var init := lines[..n - 1];
      DropTrailingBlankKeeps(init);
      assert init + [[]] == lines;
      DropEmptyAppend(init, [[]]);
      DropEmptyOne([]);
    }
  }

  /** Trimming the join of clean lines keeps every non-blank line, in order. */
  lemma TrimJoinKeepsLines(lines: seq<string>)
    requires |lines| >= 1 && AllClean(lines)
    ensures DropEmpty(Split(Trim(Join(lines, '\n')), '\n')) == DropEmpty(lines)
  {
    var front := DropLeadingBlank(lines);
    var middle := DropTrailingBlank(front);
    assert forall line :: line in middle ==> line in lines;
    TrimJoin(lines);
    SplitJoin(middle, '\n');
    DropTrailingBlankKeeps(front);
    DropLeadingBlankKeeps(lines);
  }

  /** The sanitiser as intended keeps every line of the input that is not blank, trimmed and in order. */
  lemma SanitizeTextKeepsLines(s: string)
    ensures DropEmpty(Split(SanitizeText(s), '\n')) == DropEmpty(TrimAll(Split(NormalizeNewlines(s), '\n')))
  {
    var normalized := NormalizeNewlines(s);
    var pieces := Split(normalized, '\n');
    SplitAvoids(normalized, '\n', '\r');
    TrimAllClean(pieces);
    var lines := SqueezeBlankLines(TrimAll(pieces));
    assert forall line :: line in lines ==> line in TrimAll(pieces);
    TrimJoinKeepsLines(lines);
    SqueezeKeepsNonBlank(TrimAll(pieces));
  }

  /** The sanitiser as written keeps them as well: the collapse removes only empty lines. */
  lemma SanitizeAsWrittenKeepsLines(s: string)
    ensures DropEmpty(Split(SanitizeTextAsWritten(s), '\n')) == DropEmpty(TrimAll(Split(NormalizeNewlines(s), '\n')))
  {
    var normalized := NormalizeNewlines(s);
    var collapsed := CollapseNewlines(normalized);
    var pieces := Split(collapsed, '\n');
    SplitAvoids(collapsed, '\n', '\r');
    TrimAllClean(pieces);
    TrimJoinKeepsLines(TrimAll(pieces));
    DropEmptyTrimAll(pieces);
    CollapseKeepsPieces(normalized);
    DropEmptyTrimAll(Split(normalized, '\n'));
  }

  /** Both sanitisers return the same non-blank lines; they differ only in the blank lines between them. */
  lemma SanitizersAgreeOnLines(s: string)
    ensures DropEmpty(Split(SanitizeText(s), '\n')) == DropEmpty(Split(SanitizeTextAsWritten(s), '\n'))
  {
    SanitizeTextKeepsLines(s);
    SanitizeAsWrittenKeepsLines(s);
  }

  // ---------------------------------------------------------------------------
  // features: the comma-separated fallback

  /** `.filter(Boolean)` on strings: the empty ones are dropped, the others kept in order (see DropEmptyAppend). */
  function DropEmpty(items: seq<string>): (r: seq<string>)
    ensures forall item :: item in r ==> item != [] && item in items
    ensures forall i :: 0 <= i < |items| && items[i] != [] ==> items[i] in r
    ensures (forall item :: item in items ==> item != []) ==> r == items
  {
    if items == [] then []
    else
      assert forall item :: item in items[1..] ==> item in items;
      assert [items[0]] + items[1..] == items;
      assert items[0] in items;
      var rest := DropEmpty(items[1..]);
      if items[0] == [] then rest else [items[0]] + rest
  }

  /** Filtering a concatenation filters each part: the kept items stay in their order. */
  lemma {:induction false} DropEmptyAppend(a: seq<string>, b: seq<string>)
    ensures DropEmpty(a + b) == DropEmpty(a) + DropEmpty(b)
  {
    if a == [] {
      assert a + b == b;
    } else {
      assert (a + b)[1..] == a[1..] + b;
      DropEmptyAppend(a[1..], b);
    }
  }

  /** `s.split(',').map(f => f.trim()).filter(Boolean)`: non-empty, trimmed, comma-free items. */
  function SplitFeatures(s: string): (r: seq<string>)
    ensures forall item :: item in r ==> item != [] && Trimmed(item) && ',' !in item
  {
    var pieces := Split(s, ',');
    assert forall item :: item in TrimAll(pieces) ==> Trimmed(item) && ',' !in item by {
      forall item | item in TrimAll(pieces) ensures Trimmed(item) && ',' !in item {
        var i :| 0 <= i < |pieces| && TrimAll(pieces)[i] == item;
        assert pieces[i] in pieces;
      }
    }
    DropEmpty(TrimAll(pieces))
  }

  /** Every comma-separated piece that does not trim to nothing is among the features, trimmed. */
  lemma SplitFeaturesKeepsPieces(s: string)
    ensures forall i :: 0 <= i < |Split(s, ',')| && Trim(Split(s, ',')[i]) != [] ==> Trim(Split(s, ',')[i]) in SplitFeatures(s)
  {
    var pieces := Split(s, ',');
    forall i | 0 <= i < |pieces| && Trim(pieces[i]) != [] ensures Trim(pieces[i]) in SplitFeatures(s) {
      assert TrimAll(pieces)[i] == Trim(pieces[i]);
    }
  }

  /** A piece with no comma gives its trimmed self, or nothing when that is empty. */
  lemma SplitFeaturesPiece(a: string)
    requires ',' !in a
    ensures SplitFeatures(a) == if Trim(a) == [] then [] else [Trim(a)]
  {
    SplitNoSeparator(a, ',');
    TrimAllOne(a);
    DropEmptyOne(Trim(a));
  }

  lemma TrimAllCons(a: string, rest: seq<string>)
    ensures TrimAll([a] + rest) == TrimAll([a]) + TrimAll(rest)
  {
  }

  lemma TrimAllOne(a: string)
    ensures TrimAll([a]) == [Trim(a)]
  {
  }

  lemma DropEmptyOne(t: string)
    ensures DropEmpty([t]) == if t == [] then [] else [t]
  {
    assert [t][1..] == [];
  }

  /** The fallback reads the text up to the first comma, then the rest: the items keep the text's order. */
  lemma SplitFeaturesComma(a: string, b: string)
    requires ',' !in a
    ensures SplitFeatures(a + [','] + b) == SplitFeatures(a) + SplitFeatures(b)
  {
    SplitAfterPiece(a, b, ',');
    SplitNoSeparator(a, ',');
    var rest := Split(b, ',');
    TrimAllCons(a, rest);
    DropEmptyAppend(TrimAll([a]), TrimAll(rest));
  }

  /**
   * The fallback reads back a comma-joined list of features: joining non-empty,
   * trimmed, comma-free items with ',' and splitting again returns them, in order.
   */
  lemma {:induction false} SplitFeaturesJoin(items: seq<string>)
    requires forall item :: item in items ==> item != [] && Trimmed(item) && ',' !in item
    ensures SplitFeatures(Join(items, ',')) == items
  {
    if items == [] {
      assert Split([], ',') == [[]];
      assert TrimAll([[]]) == [[]];
    } else {
      SplitJoin(items, ',');
      assert TrimAll(items) == items;
    }
  }

  lemma FeatureWordsTrimmed()
    ensures Trimmed("Gym") && Trimmed("Pool")
  {
  }

  /** `"Gym, Pool"` yields the features `["Gym", "Pool"]`. */
  lemma SplitFeaturesExample(s: string)
    requires s == "Gym, Pool"
    ensures SplitFeatures(s) == ["Gym", "Pool"]
  {
    FeatureExamplePieces(s);
    FeatureExampleTrimmed(Split(s, ','));
  }

  lemma FeatureExamplePieces(s: string)
    requires s == "Gym, Pool"
    ensures Split(s, ',') == ["Gym", " Pool"]
  {
    var gym, spaced := "Gym", " Pool";
    assert Join([gym, spaced], ',') == gym + [','] + spaced;
    assert Join([gym, spaced], ',') == s;
    SplitJoin([gym, spaced], ',');
  }

  lemma FeatureExampleTrimmed(pieces: seq<string>)
    requires pieces == ["Gym", " Pool"]
    ensures TrimAll(pieces) == ["Gym", "Pool"]
  {
    var gym, pool, spaced := "Gym", "Pool", " Pool";
    TrimDropsLeadingSpace(spaced);
    assert spaced[1..] == pool;
    FeatureWordsTrimmed();
    assert pieces[1..] == [spaced];
  }
}
