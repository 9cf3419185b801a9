/**
 * String assembly and the reading of text back into lines: the concatenation
 * the conversion loop performs with `+=`, and `str.split("\n")`, used to state
 * the layout of the rendered documents.
 */
module Text {

  /** Joins the pieces in order, with nothing between them. */
  function Concat(pieces: seq<string>): string
  {
    if pieces == [] then "" else pieces[0] + Concat(pieces[1..])
  }

  lemma {:induction false} ConcatSnoc(pieces: seq<string>, last: string)
    ensures Concat(pieces + [last]) == Concat(pieces) + last
  {
    if pieces != [] {
      assert (pieces + [last])[1..] == pieces[1..] + [last];
      ConcatSnoc(pieces[1..], last);
    }
  }

  /** Every line followed by one newline. */
  function JoinLines(lines: seq<string>): string
  {
    if lines == [] then "" else lines[0] + "\n" + JoinLines(lines[1..])
  }

  /** `s.split("\n")`: the pieces between newlines, always at least one. */
  function Split(s: string): (lines: seq<string>)
    ensures |lines| >= 1
  {
    if s == [] then [""]
    else
      var rest := Split(s[1..]);
      if s[0] == '\n' then [""] + rest else [[s[0]] + rest[0]] + rest[1..]
  }

  predicate NoNewline(line: string) {
    '\n' !in line
  }

  predicate AllNoNewline(lines: seq<string>) {
    forall k :: 0 <= k < |lines| ==> NoNewline(lines[k])
  }

  /** Splitting reads back the line in front of a newline, and the rest is split alone. */
  lemma {:induction false} SplitLine(line: string, rest: string)
    requires NoNewline(line)
    ensures Split(line + "\n" + rest) == [line] + Split(rest)
    decreases |line|
  {
    if line != [] {
      assert (line + "\n" + rest)[1..] == line[1..] + "\n" + rest;
      SplitLine(line[1..], rest);
      assert [line[0]] + line[1..] == line;
    } else {
      assert line + "\n" + rest == "\n" + rest;
    }
  }

  /** Joined lines split back into the same lines. */
  lemma {:induction false} SplitJoinLines(lines: seq<string>, rest: string)
    requires AllNoNewline(lines)
    ensures Split(JoinLines(lines) + rest) == lines + Split(rest)
    decreases |lines|
  {
    if lines != [] {
      var tail := JoinLines(lines[1..]) + rest;
      TailNoNewline(lines);
      calc {
        Split(JoinLines(lines) + rest);
        { assert JoinLines(lines) + rest == lines[0] + "\n" + tail; }
        Split(lines[0] + "\n" + tail);
        { SplitLine(lines[0], tail); }
        [lines[0]] + Split(tail);
        { SplitJoinLines(lines[1..], rest); }
        [lines[0]] + (lines[1..] + Split(rest));
        { assert lines == [lines[0]] + lines[1..]; }
        lines + Split(rest);
      }
    } else {
      assert JoinLines(lines) + rest == rest;
    }
  }

  lemma TailNoNewline(lines: seq<string>)
    requires AllNoNewline(lines) && lines != []
    ensures NoNewline(lines[0]) && AllNoNewline(lines[1..])
  {
    forall k | 0 <= k < |lines| - 1 ensures NoNewline(lines[1..][k]) {
      assert lines[1..][k] == lines[k + 1];
    }
  }

  function Flatten(blocks: seq<seq<string>>): seq<string>
  {
    if blocks == [] then [] else blocks[0] + Flatten(blocks[1..])
  }

  /** Concatenating joined blocks is joining all their lines. */
  lemma {:induction false} ConcatJoinedBlocks(pieces: seq<string>, blocks: seq<seq<string>>)
    requires |pieces| == |blocks|
    requires forall k :: 0 <= k < |blocks| ==> pieces[k] == JoinLines(blocks[k])
    ensures Concat(pieces) == JoinLines(Flatten(blocks))
  {
    if blocks != [] {
      ConcatJoinedBlocks(pieces[1..], blocks[1..]);
      JoinLinesAppend(blocks[0], Flatten(blocks[1..]));
    }
  }

  lemma {:induction false} FlattenNoNewline(blocks: seq<seq<string>>)
    requires forall k :: 0 <= k < |blocks| ==> AllNoNewline(blocks[k])
    ensures AllNoNewline(Flatten(blocks))
  {
    if blocks != [] {
      FlattenNoNewline(blocks[1..]);
      var f := Flatten(blocks);
      forall k | 0 <= k < |f| ensures NoNewline(f[k]) {
        if k < |blocks[0]| {
          assert f[k] == blocks[0][k];
        } else {
          assert f[k] == Flatten(blocks[1..])[k - |blocks[0]|];
        }
      }
    }
  }

  /** Blocks of `width` lines each: line `j` of block `k` is line `width * k + j` of the whole. */
  lemma {:induction false} FlattenAt(blocks: seq<seq<string>>, width: nat, k: nat, j: nat)
    requires forall b :: 0 <= b < |blocks| ==> |blocks[b]| == width
    requires k < |blocks| && j < width
    ensures |Flatten(blocks)| == width * |blocks|
    ensures width * k + j < |Flatten(blocks)|
    ensures Flatten(blocks)[width * k + j] == blocks[k][j]
  {
    FlattenLength(blocks, width);
    MulBelow(width, k, |blocks|);
    var rest := Flatten(blocks[1..]);
    assert Flatten(blocks) == blocks[0] + rest;
    if k > 0 {
      FlattenAt(blocks[1..], width, k - 1, j);
      var i := width * (k - 1) + j;
      assert width * k + j == width + i by {
        assert width * k == width + width * (k - 1);
      }
      assert (blocks[0] + rest)[width + i] == rest[i];
    } else {
      assert width * k + j == j;
    }
  }

  lemma MulBelow(width: nat, k: nat, n: nat)
    requires k < n
    ensures width * k + width <= width * n
  {
    var d := n - k;
    assert width * n == width * k + width * d;
    assert width * d == width + width * (d - 1);
    assert width * (d - 1) >= 0;
  }

  lemma {:induction false} FlattenLength(blocks: seq<seq<string>>, width: nat)
    requires forall b :: 0 <= b < |blocks| ==> |blocks[b]| == width
    ensures |Flatten(blocks)| == width * |blocks|
  {
    if blocks != [] {
      FlattenLength(blocks[1..], width);
      assert width * |blocks| == width + width * (|blocks| - 1);
    }
  }

  /** A document of header lines followed by joined blocks splits back into the header
      lines, the blocks' lines in order, and the empty piece after the last newline. */
  lemma SplitDocument(header: seq<string>, pieces: seq<string>, blocks: seq<seq<string>>)
    requires |pieces| == |blocks|
    requires forall k :: 0 <= k < |blocks| ==> pieces[k] == JoinLines(blocks[k])
    requires AllNoNewline(header)
    requires forall k :: 0 <= k < |blocks| ==> AllNoNewline(blocks[k])
    ensures JoinLines(header) + Concat(pieces) == JoinLines(header + Flatten(blocks))
    ensures Split(JoinLines(header) + Concat(pieces)) == header + Flatten(blocks) + [""]
  {
    ConcatJoinedBlocks(pieces, blocks);
    JoinLinesAppend(header, Flatten(blocks));
    FlattenNoNewline(blocks);
    var lines := header + Flatten(blocks);
    assert AllNoNewline(lines) by {
      forall k | 0 <= k < |lines| ensures NoNewline(lines[k]) {
        if k >= |header| {
          assert lines[k] == Flatten(blocks)[k - |header|];
        }
      }
    }
    SplitJoinLines(lines, "");
    assert JoinLines(lines) + "" == JoinLines(lines);
  }

  lemma {:induction false} JoinLinesAppend(a: seq<string>, b: seq<string>)
    ensures JoinLines(a + b) == JoinLines(a) + JoinLines(b)
  {
    if a != [] {
      assert (a + b)[1..] == a[1..] + b;
      JoinLinesAppend(a[1..], b);
    } else {
      assert a + b == b;
    }
  }
}
