/** insert_grass.py: put the stripped contents of grass_tiles.txt on a line
    of their own right after the first line of environment.json holding the
    GRASS marker comment. */
module GrassInsert {
  import opened Util
  import opened TileText

  const GrassMarker := "    // --- GRASS (fill all undefined tiles) ---"

  /** The first line containing `marker`, if any. */
  function FirstMarked(lines: seq<string>, marker: string): (r: Option<nat>)
    ensures r.Some? ==> r.value < |lines| && Contains(lines[r.value], marker)
    ensures r.Some? ==> forall k :: 0 <= k < r.value ==> !Contains(lines[k], marker)
    ensures r.None? ==> forall k :: 0 <= k < |lines| ==> !Contains(lines[k], marker)
    decreases |lines|
  {
    if |lines| == 0 then None
    else if Contains(lines[0], marker) then Some(0)
    else match FirstMarked(lines[1..], marker)
      case None => None
      case Some(k) => Some(k + 1)
  }

  /** The lines after the insertion. */
  function InsertedAfterMarker(lines: seq<string>, content: string, marker: string): seq<string>
  {
    match FirstMarked(lines, marker)
    case None => lines
    case Some(k) => lines[..k + 1] + [content] + lines[k + 1..]
  }

  /** The loop over the file's lines with the `inserted` flag. */
  method InsertAfterMarker(lines: seq<string>, content: string, marker: string)
    returns (result: seq<string>)
    ensures result == InsertedAfterMarker(lines, content, marker)
  {
    result := [];
    var inserted := false;
    ghost var at: nat := 0;
    var i := 0;
    while i < |lines|
      invariant 0 <= i <= |lines|
      invariant !inserted ==> result == lines[..i]
      invariant !inserted ==> forall k :: 0 <= k < i ==> !Contains(lines[k], marker)
      invariant inserted ==> at < i && Contains(lines[at], marker)
      invariant inserted ==> forall k :: 0 <= k < at ==> !Contains(lines[k], marker)
      invariant inserted ==> result == lines[..at + 1] + [content] + lines[at + 1..i]
    {
      var line := lines[i];
      if inserted {
        assert lines[at + 1..i + 1] == lines[at + 1..i] + [line];
      } else {
        assert lines[..i + 1] == lines[..i] + [line];
      }
      result := result + [line];
      if Contains(line, marker) && !inserted {
        result := result + [content];
        inserted := true;
        at := i;
      }
      i := i + 1;
    }
    assert lines[..i] == lines;
    if inserted {
      assert FirstMarked(lines, marker) == Some(at);
    }
  }

  /** The whole script on the texts of the two files: the new text of
      environment.json. */
  method InsertGrass(envText: string, grassText: string) returns (outText: string)
    ensures outText == JoinWith("\n", InsertedAfterMarker(SplitLines(envText), Strip(grassText), GrassMarker))
  {
    var grassContent := Strip(grassText);
    var lines := SplitLines(envText);
    var result := InsertAfterMarker(lines, grassContent, GrassMarker);
    outText := JoinWith("\n", result);
  }

  // ---------------------------------------------------------------------
  // What the insertion does

  /** Without a marker line the file is written back exactly as it was. */
  lemma NoMarkerKeepsText(envText: string, grassText: string)
    requires FirstMarked(SplitLines(envText), GrassMarker).None?
    ensures JoinWith("\n", InsertedAfterMarker(SplitLines(envText), Strip(grassText), GrassMarker)) == envText
  {
    JoinSplit(envText);
  }

  /** With a marker line, the content sits right after the first one, and
      taking it out again leaves the input lines in their order. */
  lemma InsertedOnce(lines: seq<string>, content: string, marker: string)
    requires FirstMarked(lines, marker).Some?
    ensures var k := FirstMarked(lines, marker).value;
            var r := InsertedAfterMarker(lines, content, marker);
            |r| == |lines| + 1 && r[k] == lines[k] && r[k + 1] == content
            && r[..k + 1] + r[k + 2..] == lines
  {
    var k := FirstMarked(lines, marker).value;
    var r := InsertedAfterMarker(lines, content, marker);
    assert r[..k + 1] == lines[..k + 1];
    assert r[k + 2..] == lines[k + 1..];
    assert lines[..k + 1] + lines[k + 1..] == lines;
  }
}
