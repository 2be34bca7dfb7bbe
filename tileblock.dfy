/** The write-back both clean-up scripts share: the environment file is
    copied line by line, except that everything between the line holding
    `"tiles": [` and the next line reading `],` is replaced, once, by one
    line per tile of the cleaned list. */
module TileBlock {
  import opened Util
  import opened TileText

  const TilesOpen := "\"tiles\": ["
  const TilesClose := "],"

  /** The line enters the tiles section (`'"tiles": [' in line`). */
  predicate Opens(line: string)
  {
    Contains(line, TilesOpen)
  }

  /** The line ends the tiles section (`line.strip() == '],'`). */
  predicate Closes(line: string)
  {
    Strip(line) == TilesClose
  }

  /** The lines written for the cleaned tiles. */
  function Rows(tiles: seq<Tile>): seq<string>
  {
    CommaRows(TileLines(tiles))
  }

  /** The loop's state: lines output so far and the two flags. */
  datatype Rewrite = Rewrite(out: seq<string>, inSection: bool, written: bool)

  const Start := Rewrite([], false, false)

  /** One turn of the line loop. */
  function RewriteStep(st: Rewrite, line: string, tiles: seq<Tile>): Rewrite
  {
    if Opens(line) then Rewrite(st.out + [line], true, st.written)
    else if st.inSection && Closes(line) then
      Rewrite(st.out + (if st.written then [] else Rows(tiles)) + [line], false, true)
    else if st.inSection then st
    else Rewrite(st.out + [line], st.inSection, st.written)
  }

  /** The loop run from state `st` over `lines`. */
  function RewriteFrom(st: Rewrite, lines: seq<string>, tiles: seq<Tile>): Rewrite
    decreases |lines|
  {
    if |lines| == 0 then st
    else RewriteFrom(RewriteStep(st, lines[0], tiles), lines[1..], tiles)
  }

  /** The output lines for the file's `lines` and the cleaned `tiles`. */
  function RewriteTiles(lines: seq<string>, tiles: seq<Tile>): seq<string>
  {
    RewriteFrom(Start, lines, tiles).out
  }

  /** The inner loop appending one line per tile. */
  method AppendRows(before: seq<string>, tiles: seq<Tile>) returns (output: seq<string>)
    ensures output == before + Rows(tiles)
  {
    output := before;
    ghost var rows := Rows(tiles);
    var j := 0;
    while j < |tiles|
      invariant 0 <= j <= |tiles| == |rows|
      invariant output == before + rows[..j]
    {
      var comma := if j < |tiles| - 1 then "," else "";
      var row := TileLine(tiles[j]) + comma;
      RowAt(tiles, j);
      PrefixStep(before, rows, j);
      output := output + [row];
      j := j + 1;
    }
    assert rows[..j] == rows;
  }

  lemma RowAt(tiles: seq<Tile>, j: int)
    requires 0 <= j < |tiles|
    ensures |Rows(tiles)| == |tiles|
    ensures Rows(tiles)[j] == TileLine(tiles[j]) + (if j < |tiles| - 1 then "," else "")
  {
  }

  lemma PrefixStep(before: seq<string>, rows: seq<string>, j: int)
    requires 0 <= j < |rows|
    ensures before + rows[..j + 1] == before + rows[..j] + [rows[j]]
  {
    assert rows[..j + 1] == rows[..j] + [rows[j]];
  }

  /** The write-back loop. */
  method RewriteTilesBlock(lines: seq<string>, tiles: seq<Tile>) returns (output: seq<string>)
    ensures output == RewriteTiles(lines, tiles)
  {
    output := [];
    var inSection := false;
    var written := false;
    var i := 0;
    while i < |lines|
      invariant 0 <= i <= |lines|
      invariant RewriteFrom(Rewrite(output, inSection, written), lines[i..], tiles)
                == RewriteFrom(Start, lines, tiles)
    {
      var line := lines[i];
      ghost var st := Rewrite(output, inSection, written);
      assert lines[i..][0] == line && lines[i..][1..] == lines[i + 1..];
      assert RewriteFrom(st, lines[i..], tiles)
             == RewriteFrom(RewriteStep(st, line, tiles), lines[i + 1..], tiles);
      if Contains(line, TilesOpen) {
        inSection := true;
        output := output + [line];
      } else if inSection && Strip(line) == TilesClose {
        if !written {
          output := AppendRows(output, tiles);
          written := true;
        }
        output := output + [line];
        inSection := false;
      } else if !inSection {
        output := output + [line];
      }
      assert Rewrite(output, inSection, written) == RewriteStep(st, line, tiles);
      i := i + 1;
    }
  }

  // ---------------------------------------------------------------------
  // What the write-back does to a file

  lemma {:induction false} RewriteFromConcat(st: Rewrite, a: seq<string>, b: seq<string>, tiles: seq<Tile>)
    ensures RewriteFrom(st, a + b, tiles) == RewriteFrom(RewriteFrom(st, a, tiles), b, tiles)
    decreases |a|
  {
    if |a| == 0 {
      assert a + b == b;
    } else {
      assert (a + b)[0] == a[0] && (a + b)[1..] == a[1..] + b;
      RewriteFromConcat(RewriteStep(st, a[0], tiles), a[1..], b, tiles);
    }
  }

  /** Outside the section, lines with no `"tiles": [` are copied. */
  lemma {:induction false} CopiesOutside(st: Rewrite, ls: seq<string>, tiles: seq<Tile>)
    requires !st.inSection
    requires forall k :: 0 <= k < |ls| ==> !Opens(ls[k])
    ensures RewriteFrom(st, ls, tiles) == Rewrite(st.out + ls, false, st.written)
    decreases |ls|
  {
    if |ls| > 0 {
      var st' := RewriteStep(st, ls[0], tiles);
      assert st' == Rewrite(st.out + [ls[0]], false, st.written);
      CopiesOutside(st', ls[1..], tiles);
      assert st.out + [ls[0]] + ls[1..] == st.out + ls;
    }
  }

  /** Inside the section, lines that neither open nor close it are dropped. */
  lemma {:induction false} SkipsInside(st: Rewrite, ls: seq<string>, tiles: seq<Tile>)
    requires st.inSection
    requires forall k :: 0 <= k < |ls| ==> !Opens(ls[k]) && !Closes(ls[k])
    ensures RewriteFrom(st, ls, tiles) == st
    decreases |ls|
  {
    if |ls| > 0 {
      SkipsInside(st, ls[1..], tiles);
    }
  }

  /** A file without a `"tiles": [` line is written back unchanged. */
  lemma NoSectionUnchanged(lines: seq<string>, tiles: seq<Tile>)
    requires forall k :: 0 <= k < |lines| ==> !Opens(lines[k])
    ensures RewriteTiles(lines, tiles) == lines
  {
    CopiesOutside(Start, lines, tiles);
  }

  /** A file with one tiles section: the lines before it, its opening and
      closing lines and the lines after it are kept; the old tile lines in
      between are replaced by the rows of the cleaned tiles. */
  lemma SectionReplaced(pre: seq<string>, open: string, mid: seq<string>, close: string,
                        post: seq<string>, tiles: seq<Tile>)
    requires forall k :: 0 <= k < |pre| ==> !Opens(pre[k])
    requires Opens(open)
    requires forall k :: 0 <= k < |mid| ==> !Opens(mid[k]) && !Closes(mid[k])
    requires !Opens(close) && Closes(close)
    requires forall k :: 0 <= k < |post| ==> !Opens(post[k])
    ensures RewriteTiles(pre + [open] + mid + [close] + post, tiles)
            == pre + [open] + Rows(tiles) + [close] + post
  {
    var s0 := RewriteFrom(Start, pre, tiles);
    CopiesOutside(Start, pre, tiles);
    var s1 := RewriteStep(s0, open, tiles);
    assert s1 == Rewrite(pre + [open], true, false);
    assert RewriteFrom(s0, [open], tiles) == s1;
    SkipsInside(s1, mid, tiles);
    var s2 := RewriteStep(s1, close, tiles);
    assert s2 == Rewrite(pre + [open] + Rows(tiles) + [close], false, true);
    assert RewriteFrom(s1, [close], tiles) == s2;
    CopiesOutside(s2, post, tiles);
    RewriteFromConcat(Start, pre, [open], tiles);
    RewriteFromConcat(Start, pre + [open], mid, tiles);
    RewriteFromConcat(Start, pre + [open] + mid, [close], tiles);
    RewriteFromConcat(Start, pre + [open] + mid + [close], post, tiles);
  }

  /** The rows are one line per tile, in order, with a comma on all but the last. */
  lemma RowsShape(tiles: seq<Tile>)
    ensures |Rows(tiles)| == |tiles|
    ensures forall k :: 0 <= k < |tiles| - 1 ==> Rows(tiles)[k] == TileLine(tiles[k]) + ","
    ensures |tiles| > 0 ==> Rows(tiles)[|tiles| - 1] == TileLine(tiles[|tiles| - 1])
  {
  }
}
