/**
 * The three counts the server computes from a file's content: lines as
 * Files.lines sees them (BufferedReader.readLine), words as the length of
 * `content.split("\\s+")`, and characters as `content.length()`, the number of
 * UTF-16 code units. Lines and words are given as Java computes them and proved
 * equal to an independent count.
 */
module Counting {
  import opened JavaText

  /** The characters the regex class `\s` matches: space, \t, \n, \u000B, \f, \r. */
  predicate IsWs(c: char)
  {
    c == ' ' || c == '\t' || c == '\n' || c == '\U{B}' || c == '\U{C}' || c == '\r'
  }

  predicate HasWs(s: string)
  {
    exists i :: 0 <= i < |s| && IsWs(s[i])
  }

  /** The characters that end a line for readLine: \n and \r (a \r\n pair ends one line). */
  predicate IsLineEnd(c: char)
  {
    c == '\n' || c == '\r'
  }

  // ---------------------------------------------------------------- lines

  /** What is left after readLine has consumed one line and its terminator. */
  function AfterLine(s: string): (r: string)
    requires s != []
    ensures |r| < |s| && r == s[|s| - |r|..]
  {
    if s[0] == '\n' then s[1..]
    else if s[0] == '\r' then (if |s| >= 2 && s[1] == '\n' then s[2..] else s[1..])
    else if |s| == 1 then []
    else AfterLine(s[1..])
  }

  /** Files.lines(path).count(): how many times readLine returns a line before it returns null. */
  function LineCount(s: string): (r: nat)
    ensures r <= |s|
    ensures r == 0 <==> s == []
    decreases |s|
  {
    if s == [] then 0 else 1 + LineCount(AfterLine(s))
  }

  /** Reference count of line terminators, a \r\n pair counting once. */
  function Breaks(s: string): nat
    decreases |s|
  {
    if s == [] then 0
    else if s[0] == '\r' && |s| >= 2 && s[1] == '\n' then 1 + Breaks(s[2..])
    else if IsLineEnd(s[0]) then 1 + Breaks(s[1..])
    else Breaks(s[1..])
  }

  /** A line that has not ended yet at s[0] ends where the one starting at s[1] does. */
  lemma LineCountSkip(s: string)
    requires s != [] && !IsLineEnd(s[0])
    ensures LineCount(s) == if |s| == 1 then 1 else LineCount(s[1..])
  {
  }

  /**
   * The line count is the number of terminators, plus one for a last line that has
   * none: a trailing terminator adds no line and empty content has no line.
   */
  lemma {:induction false} LineCountIsBreaks(s: string)
    ensures LineCount(s) == Breaks(s) + if s != [] && !IsLineEnd(s[|s| - 1]) then 1 else 0
    decreases |s|
  {
    if s != [] {
      var last := s[|s| - 1];
      if s[0] == '\r' && |s| >= 2 && s[1] == '\n' {
        var t := s[2..];
        assert LineCount(s) == 1 + LineCount(t);
        assert Breaks(s) == 1 + Breaks(t);
        LineCountIsBreaks(t);
        assert t != [] ==> t[|t| - 1] == last;
      } else if IsLineEnd(s[0]) {
        var t := s[1..];
        assert LineCount(s) == 1 + LineCount(t);
        assert Breaks(s) == 1 + Breaks(t);
        LineCountIsBreaks(t);
        assert t != [] ==> t[|t| - 1] == last;
      } else {
        var t := s[1..];
        LineCountSkip(s);
        assert Breaks(s) == Breaks(t);
        if t != [] {
          LineCountIsBreaks(t);
          assert t[|t| - 1] == last;
        }
      }
    }
  }

  /** A line with no terminator in it, followed by "\n", is one line before the rest. */
  lemma {:induction false} LineCountAfterFirst(x: string, y: string)
    requires forall i :: 0 <= i < |x| ==> !IsLineEnd(x[i])
    ensures LineCount(x + "\n" + y) == 1 + LineCount(y)
    decreases |x|
  {
    var s := x + "\n" + y;
    if x == [] {
      assert s[1..] == y;
    } else {
      assert s[1..] == x[1..] + "\n" + y;
      LineCountSkip(s);
      LineCountAfterFirst(x[1..], y);
    }
  }

  /** Non-empty content without a terminator is one line. */
  lemma {:induction false} LineCountOfOneLine(y: string)
    requires y != [] && forall i :: 0 <= i < |y| ==> !IsLineEnd(y[i])
    ensures LineCount(y) == 1
    decreases |y|
  {
    LineCountSkip(y);
    if |y| > 1 {
      LineCountOfOneLine(y[1..]);
    }
  }

  // ---------------------------------------------------------------- words

  /** The fields of `s` between maximal runs of whitespace, empty ones included. */
  function WsPieces(s: string): (r: seq<string>)
    ensures |r| >= 1
    ensures forall i :: 0 <= i < |r| ==> !HasWs(r[i])
  {
    if s == [] then [""]
    else
      var rest := WsPieces(s[1..]);
      if IsWs(s[0]) then
        if |s| > 1 && IsWs(s[1]) then rest else [""] + rest
      else
        var r := [[s[0]] + rest[0]] + rest[1..];
        assert !HasWs([s[0]] + rest[0]) by {
          forall i | 0 <= i < |[s[0]] + rest[0]| ensures !IsWs(([s[0]] + rest[0])[i]) {
            if i > 0 {
              assert ([s[0]] + rest[0])[i] == rest[0][i - 1];
            }
          }
        }
        r
  }

  /**
   * `s.split("\\s+")`: `[s]` when nothing matches, otherwise the fields between the
   * matches (a match at the very start giving an empty first field) without the
   * trailing empty ones.
   */
  function SplitWs(s: string): (r: seq<string>)
    ensures !HasWs(s) ==> r == [s]
    ensures forall i :: 0 <= i < |r| ==> !HasWs(r[i])
    ensures HasWs(s) ==> r == [] || r[|r| - 1] != ""
  {
    if !HasWs(s) then [s] else StripTrailingEmpty(WsPieces(s))
  }

  /** countWords on content that could be read. */
  function WordCount(s: string): (r: nat)
    ensures !HasWs(s) ==> r == 1
  {
    |SplitWs(s)|
  }

  /** Reference count of words: the non-whitespace characters that end a maximal run. */
  function Runs(s: string): nat
    decreases |s|
  {
    if s == [] then 0
    else (if !IsWs(s[0]) && (|s| == 1 || IsWs(s[1])) then 1 else 0) + Runs(s[1..])
  }

  /** The number of non-empty strings in `ps`. */
  function NonEmpty(ps: seq<string>): nat
  {
    if ps == [] then 0 else (if ps[0] != "" then 1 else 0) + NonEmpty(ps[1..])
  }

  /** The first field is empty exactly when the content starts with whitespace. */
  lemma FirstPieceEmpty(s: string)
    requires s != []
    ensures WsPieces(s)[0] == "" <==> IsWs(s[0])
  {
  }

  /** Content with whitespace in it has at least two fields. */
  lemma {:induction false} PiecesOfWs(s: string)
    requires HasWs(s)
    ensures |WsPieces(s)| >= 2
    decreases |s|
  {
    var i :| 0 <= i < |s| && IsWs(s[i]);
    if i > 0 {
      assert IsWs(s[1..][i - 1]);
    }
    if IsWs(s[0]) {
      if |s| > 1 && IsWs(s[1]) {
        assert IsWs(s[1..][0]);
        PiecesOfWs(s[1..]);
      }
    } else {
      PiecesOfWs(s[1..]);
    }
  }

  /** Only the first and the last field can be empty. */
  lemma {:induction false} InnerPiecesNonEmpty(s: string)
    ensures forall i :: 0 < i < |WsPieces(s)| - 1 ==> WsPieces(s)[i] != ""
    decreases |s|
  {
    if s != [] {
      var rest := WsPieces(s[1..]);
      InnerPiecesNonEmpty(s[1..]);
      if IsWs(s[0]) && !(|s| > 1 && IsWs(s[1])) && |s| > 1 {
        FirstPieceEmpty(s[1..]);
      }
    }
  }

  /** Every maximal run of non-whitespace is one non-empty field. */
  lemma {:induction false} NonEmptyPiecesAreRuns(s: string)
    ensures NonEmpty(WsPieces(s)) == Runs(s)
    decreases |s|
  {
    if s != [] {
      var rest := WsPieces(s[1..]);
      NonEmptyPiecesAreRuns(s[1..]);
      if IsWs(s[0]) {
        if !(|s| > 1 && IsWs(s[1])) {
          assert ([""] + rest)[1..] == rest;
        }
      } else {
        var r := [[s[0]] + rest[0]] + rest[1..];
        assert r[1..] == rest[1..];
        assert NonEmpty(rest) == (if rest[0] != "" then 1 else 0) + NonEmpty(rest[1..]);
        if |s| > 1 {
          FirstPieceEmpty(s[1..]);
        }
      }
    }
  }

  /** Among fields of which only the last may be empty, all but that one count. */
  lemma {:induction false} NonEmptyAllButLast(t: seq<string>)
    requires t != []
    requires forall i :: 0 <= i < |t| - 1 ==> t[i] != ""
    ensures NonEmpty(t) == |t| - if t[|t| - 1] == "" then 1 else 0
  {
    if |t| > 1 {
      NonEmptyAllButLast(t[1..]);
    }
  }

  /** Fields of which only the first and the last may be empty. */
  lemma NonEmptyInner(ps: seq<string>)
    requires |ps| >= 2
    requires forall i :: 0 < i < |ps| - 1 ==> ps[i] != ""
    ensures NonEmpty(ps) == |ps| - (if ps[0] == "" then 1 else 0) - (if ps[|ps| - 1] == "" then 1 else 0)
  {
    NonEmptyAllButLast(ps[1..]);
  }

  /** Dropping the trailing empty fields leaves the non-empty ones and an empty first field before them. */
  lemma StripInner(ps: seq<string>)
    requires |ps| >= 2
    requires forall i :: 0 < i < |ps| - 1 ==> ps[i] != ""
    ensures |StripTrailingEmpty(ps)| == NonEmpty(ps) + if ps[0] == "" && NonEmpty(ps) > 0 then 1 else 0
  {
    NonEmptyInner(ps);
    var m := |ps| - 1;
    if ps[m] == "" {
      assert StripTrailingEmpty(ps) == StripTrailingEmpty(ps[..m]);
      if m >= 2 {
        assert ps[..m][m - 1] == ps[m - 1] != "";
      } else if ps[0] == "" {
        assert StripTrailingEmpty(ps[..m][..0]) == [];
      }
    }
  }

  /** Content without whitespace that is not empty is one word. */
  lemma {:induction false} RunsWithoutWs(s: string)
    requires s != [] && !HasWs(s)
    ensures Runs(s) == 1
    decreases |s|
  {
    if |s| > 1 {
      assert !IsWs(s[1]);
      assert !HasWs(s[1..]) by {
        forall i | 0 <= i < |s[1..]| ensures !IsWs(s[1..][i]) {
          assert s[1..][i] == s[i + 1];
        }
      }
      RunsWithoutWs(s[1..]);
    }
  }

  /**
   * The word count is the number of maximal non-whitespace runs, plus one for the
   * empty first field that leading whitespace produces when a word follows it. So
   * empty content counts 1 and whitespace-only content counts 0.
   */
  lemma WordCountIsRuns(s: string)
    ensures WordCount(s) == if s == [] then 1 else Runs(s) + if IsWs(s[0]) && Runs(s) > 0 then 1 else 0
  {
    if HasWs(s) {
      PiecesOfWs(s);
      InnerPiecesNonEmpty(s);
      NonEmptyPiecesAreRuns(s);
      FirstPieceEmpty(s);
      StripInner(WsPieces(s));
    } else if s != [] {
      RunsWithoutWs(s);
    }
  }

  // ---------------------------------------------------------------- the three counts

  /** The count options a request may name. */
  datatype CountKind = Lines | Words | Characters

  /** The count of `content` that countLines, countWords or countCharacters returns. */
  function CountOf(kind: CountKind, content: string): (r: nat)
    ensures kind == Lines ==> r <= |content| && (r == 0 <==> content == [])
    ensures kind == Words && !HasWs(content) ==> r == 1
    ensures kind == Characters ==> |content| <= r <= 2 * |content|
    ensures kind == Characters ==> (r == |content| <==> forall i :: 0 <= i < |content| ==> InBmp(content[i]))
  {
    match kind
    case Lines => LineCount(content)
    case Words => WordCount(content)
    case Characters => Utf16Length(content)
  }

  /** "a b\nc" has 2 lines. */
  lemma SampleLines(s: string)
    requires s == "a b\nc"
    ensures CountOf(Lines, s) == 2
  {
    var x, y := "a b", "c";
    assert s == x + "\n" + y;
    LineCountAfterFirst(x, y);
    LineCountOfOneLine(y);
  }

  /** "a b\nc" has 3 words and 5 characters. */
  lemma SampleWords()
    ensures CountOf(Words, "a b\nc") == 3 && CountOf(Characters, "a b\nc") == 5
  {
    WordCountIsRuns("a b\nc");
  }

  /** A character outside the Basic Multilingual Plane is two characters to `length()`. */
  lemma SurrogatePairCharacters()
    ensures CountOf(Characters, "\U{1F600}") == 2
    ensures CountOf(Characters, "a\U{1F600}") == 3
  {
    assert !InBmp('\U{1F600}');
  }

  /** Empty content has no line and one word; whitespace alone has no word; leading whitespace adds one. */
  lemma EdgeCounts()
    ensures CountOf(Lines, "") == 0 && CountOf(Words, "") == 1
    ensures CountOf(Words, "  ") == 0 && CountOf(Words, " a") == 2
  {
    WordCountIsRuns("");
    WordCountIsRuns("  ");
    WordCountIsRuns(" a");
  }
}
