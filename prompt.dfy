/** The list of legal moves embedded in the prompt (`generatePrompt` in src/app/page.tsx):
    every move the engine offers becomes a line `- <move>`, and the lines are joined with
    a newline, as JavaScript's `map` and `join("\n")` do. */
module Prompt {
  import opened Wrappers

  predicate NoNewline(s: string)
  {
    forall k :: 0 <= k < |s| ==> s[k] != '\n'
  }

  predicate NoNewlines(ss: seq<string>)
  {
    forall k :: 0 <= k < |ss| ==> NoNewline(ss[k])
  }

  /** `s.split("\n")`: always at least one piece. */
  function SplitLines(s: string): (lines: seq<string>)
    ensures |lines| >= 1
  {
    if s == [] then [""]
    else
      var rest := SplitLines(s[1..]);
      if s[0] == '\n' then [""] + rest
      else [[s[0]] + rest[0]] + rest[1..]
  }

  /** Text without a newline glues onto the first piece of what follows it. */
  lemma {:induction false} SplitLinesPrefix(a: string, b: string)
    ensures NoNewline(a) ==> SplitLines(a + b) == [a + SplitLines(b)[0]] + SplitLines(b)[1..]
  {
    var sb := SplitLines(b);
    if a == [] {
      assert a + b == b;
      assert a + sb[0] == sb[0];
      assert sb == [sb[0]] + sb[1..];
    } else if NoNewline(a) {
      assert (a + b)[1..] == a[1..] + b;
      SplitLinesPrefix(a[1..], b);
      var rest := SplitLines(a[1..] + b);
      assert rest[0] == a[1..] + sb[0] && rest[1..] == sb[1..];
      assert [a[0]] + (a[1..] + sb[0]) == a + sb[0];
    }
  }

  /** `lines.join("\n")`. The empty list gives the empty string; a non-empty list of lines
      without newlines is recovered by splitting on newlines. */
  function Join(lines: seq<string>): (s: string)
    ensures lines == [] ==> s == ""
    ensures lines != [] && NoNewlines(lines) ==> SplitLines(s) == lines
  {
    if |lines| == 0 then ""
    else if |lines| == 1 then
      SplitLinesPrefix(lines[0], "");
      assert lines[0] + "" == lines[0];
      assert lines == [lines[0]];
      lines[0]
    else
      var rest := Join(lines[1..]);
      SplitLinesPrefix(lines[0], "\n" + rest);
      assert ("\n" + rest)[1..] == rest;
      assert SplitLines("\n" + rest) == [""] + SplitLines(rest);
      assert NoNewlines(lines) ==> NoNewlines(lines[1..]) by {
        if NoNewlines(lines) {
          forall k | 0 <= k < |lines| - 1
            ensures NoNewline(lines[1..][k])
          {
            assert lines[1..][k] == lines[k + 1];
          }
        }
      }
      assert lines[0] + "" == lines[0];
      assert lines == [lines[0]] + lines[1..];
      assert lines[0] + "\n" + rest == lines[0] + ("\n" + rest);
      lines[0] + "\n" + rest
  }

  /** Reads the list back: the empty text is the empty list; otherwise every line must
      start with "- " and the rest of the line is the move. */
  function ParseMoveList(s: string): Option<seq<string>>
  {
    if s == [] then Some([])
    else
      var lines := SplitLines(s);
      if forall k :: 0 <= k < |lines| ==> |lines[k]| >= 2 && lines[k][..2] == "- " then
        Some(seq(|lines|, k requires 0 <= k < |lines| => lines[k][2..]))
      else None
  }

  /** `moves.map(move => `- ${move}`).join("\n")`. The list reads back as exactly the
      engine's moves, in the engine's order; a non-empty list has one line per move, and
      line k is "- " followed by move k. */
  function LegalMoveList(moves: seq<string>): (r: string)
    ensures moves == [] ==> r == ""
    ensures NoNewlines(moves) ==> ParseMoveList(r) == Some(moves)
    ensures moves != [] && NoNewlines(moves) ==>
              |SplitLines(r)| == |moves| &&
              forall k :: 0 <= k < |moves| ==> SplitLines(r)[k] == "- " + moves[k]
  {
    var lines := seq(|moves|, i requires 0 <= i < |moves| => "- " + moves[i]);
    assert moves != [] && NoNewlines(moves) ==> ParseMoveList(Join(lines)) == Some(moves) by {
      if moves != [] && NoNewlines(moves) {
        forall k | 0 <= k < |lines|
          ensures NoNewline(lines[k]) && |lines[k]| >= 2 && lines[k][..2] == "- " && lines[k][2..] == moves[k]
        {
          assert lines[k] == "- " + moves[k];
        }
        assert Join(lines) != [] by {
          if |lines| == 1 {
            assert Join(lines) == lines[0];
          } else {
            assert Join(lines) == lines[0] + "\n" + Join(lines[1..]);
          }
        }
        var parsed := seq(|lines|, k requires 0 <= k < |lines| => lines[k][2..]);
        assert parsed == moves;
      }
    }
    Join(lines)
  }
}
