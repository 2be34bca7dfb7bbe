/** Text vocabulary of the environment-file scripts: a tile of the
    environment file's "tiles" array, Python's `str.strip`, `split('\n')`
    and `sep.join(...)`, and the one-line rendering of a tile the scripts
    write back. */
module TileText {
  import opened Util

  /** One entry of the "tiles" array: its cell and its "type" string. */
  datatype Tile = Tile(x: int, y: int, kind: string)

  function Coord(t: Tile): (int, int)
  {
    (t.x, t.y)
  }

  /** The set of cells the tiles occupy (`{(tile['x'], tile['y']) for tile in tiles}`). */
  function Coords(ts: seq<Tile>): set<(int, int)>
  {
    set k | 0 <= k < |ts| :: Coord(ts[k])
  }

  lemma CoordsSnoc(ts: seq<Tile>, t: Tile)
    ensures Coords(ts + [t]) == Coords(ts) + {Coord(t)}
  {
    var ts' := ts + [t];
    assert Coord(ts'[|ts|]) == Coord(t);
    forall c | c in Coords(ts) ensures c in Coords(ts') {
      var k :| 0 <= k < |ts| && Coord(ts[k]) == c;
      assert ts'[k] == ts[k];
    }
  }

  // ---------------------------------------------------------------------
  // str.strip()

  /** The ASCII characters Python's `str.isspace` accepts: space, \t, \n,
      \v, \f, \r and the four separators \x1c-\x1f. */
  predicate IsSpace(c: char)
  {
    c == ' ' || 9 <= c as int <= 13 || 28 <= c as int <= 31
  }

  function StripLeft(s: string): (r: string)
    ensures |r| <= |s|
    ensures r == [] || !IsSpace(r[0])
    decreases |s|
  {
    if |s| > 0 && IsSpace(s[0]) then StripLeft(s[1..]) else s
  }

  function StripRight(s: string): (r: string)
    ensures |r| <= |s|
    ensures r == [] || !IsSpace(r[|r| - 1])
    decreases |s|
  {
    if |s| > 0 && IsSpace(s[|s| - 1]) then StripRight(s[..|s| - 1]) else s
  }

  /** `s.strip()`: `s` without its leading and trailing whitespace. */
  function Strip(s: string): string
  {
    StripRight(StripLeft(s))
  }

  /** The stripped text neither starts nor ends with whitespace. */
  lemma StripEnds(s: string)
    ensures var r := Strip(s); r == [] || (!IsSpace(r[0]) && !IsSpace(r[|r| - 1]))
  {
    var l := StripLeft(s);
    StripRightPrefix(l);
  }

  /** What the left strip keeps is a suffix, and what it cuts is whitespace. */
  lemma {:induction false} StripLeftSuffix(s: string)
    ensures StripLeft(s) == s[|s| - |StripLeft(s)|..]
    ensures forall k :: 0 <= k < |s| - |StripLeft(s)| ==> IsSpace(s[k])
    decreases |s|
  {
    if |s| > 0 && IsSpace(s[0]) {
      StripLeftSuffix(s[1..]);
      var r := StripLeft(s[1..]);
      assert s[1..][|s| - 1 - |r|..] == s[|s| - |r|..];
      forall k | 1 <= k < |s| - |r| ensures IsSpace(s[k]) {
        assert s[k] == s[1..][k - 1];
      }
    }
  }

  /** What the right strip keeps is a prefix, and what it cuts is whitespace. */
  lemma {:induction false} StripRightPrefix(s: string)
    ensures StripRight(s) == s[..|StripRight(s)|]
    ensures forall k :: |StripRight(s)| <= k < |s| ==> IsSpace(s[k])
    decreases |s|
  {
    if |s| > 0 && IsSpace(s[|s| - 1]) {
      var t := s[..|s| - 1];
      StripRightPrefix(t);
      var r := StripRight(t);
      assert t[..|r|] == s[..|r|];
      forall k | |r| <= k < |s| - 1 ensures IsSpace(s[k]) {
        assert s[k] == t[k];
      }
    }
  }

  /** What is left is a slice of `s`, and everything cut off was whitespace. */
  lemma StripSlice(s: string) returns (i: nat)
    ensures i + |Strip(s)| <= |s| && Strip(s) == s[i..i + |Strip(s)|]
    ensures forall k :: 0 <= k < i ==> IsSpace(s[k])
    ensures forall k :: i + |Strip(s)| <= k < |s| ==> IsSpace(s[k])
  {
    var l := StripLeft(s);
    var r := StripRight(l);
    StripLeftSuffix(s);
    StripRightPrefix(l);
    i := |s| - |l|;
    SliceOfSuffix(s, i, l, r);
  }

  lemma SliceOfSuffix(s: string, i: nat, l: string, r: string)
    requires i <= |s| && l == s[i..] && |r| <= |l| && r == l[..|r|]
    requires forall k :: |r| <= k < |l| ==> IsSpace(l[k])
    ensures i + |r| <= |s| && r == s[i..i + |r|]
    ensures forall k :: i + |r| <= k < |s| ==> IsSpace(s[k])
  {
    forall k | i + |r| <= k < |s| ensures IsSpace(s[k]) {
      assert s[k] == l[k - i];
    }
  }

  lemma StripIdempotent(s: string)
    ensures Strip(Strip(s)) == Strip(s)
  {
    var r := Strip(s);
    StripEnds(s);
    assert StripLeft(r) == r;
    assert StripRight(r) == r;
  }

  // ---------------------------------------------------------------------
  // text.split('\n') and sep.join(lines)

  /** `s.split('\n')`: the pieces between newlines, always at least one. */
  function SplitLines(s: string): (r: seq<string>)
    ensures |r| >= 1
    ensures forall k :: 0 <= k < |r| ==> '\n' !in r[k]
    decreases |s|
  {
    if |s| == 0 then [""]
    else
      var rest := SplitLines(s[1..]);
      if s[0] == '\n' then [""] + rest
      else [[s[0]] + rest[0]] + rest[1..]
  }

  /** `sep.join(ls)`. */
  function JoinWith(sep: string, ls: seq<string>): string
    decreases |ls|
  {
    if |ls| == 0 then ""
    else if |ls| == 1 then ls[0]
    else ls[0] + sep + JoinWith(sep, ls[1..])
  }

  predicate NoNewline(s: string)
  {
    '\n' !in s
  }

  /** Joining the split text with newlines gives the text back. */
  lemma {:induction false} JoinSplit(s: string)
    ensures JoinWith("\n", SplitLines(s)) == s
    decreases |s|
  {
    if |s| > 0 {
      var rest := SplitLines(s[1..]);
      JoinSplit(s[1..]);
      if s[0] == '\n' {
        assert ([""] + rest)[1..] == rest;
        assert s == "\n" + s[1..];
      } else if |rest| == 1 {
        assert s == [s[0]] + s[1..];
      } else {
        var r := [[s[0]] + rest[0]] + rest[1..];
        assert r[1..] == rest[1..];
        assert JoinWith("\n", rest) == rest[0] + "\n" + JoinWith("\n", rest[1..]);
        assert s == [s[0]] + s[1..];
      }
    }
  }

  lemma {:induction false} SplitWithoutNewline(a: string)
    requires NoNewline(a)
    ensures SplitLines(a) == [a]
    decreases |a|
  {
    if |a| > 0 {
      assert a[1..][0..] == a[1..];
      assert forall k :: 0 <= k < |a| - 1 ==> a[1..][k] == a[k + 1];
      SplitWithoutNewline(a[1..]);
      assert [a[0]] + a[1..] == a;
    }
  }

  lemma {:induction false} SplitAtNewline(a: string, b: string)
    requires NoNewline(a)
    ensures SplitLines(a + "\n" + b) == [a] + SplitLines(b)
    decreases |a|
  {
    var s := a + "\n" + b;
    if |a| == 0 {
      assert s[1..] == b;
    } else {
      assert s[1..] == a[1..] + "\n" + b;
      assert forall k :: 0 <= k < |a| - 1 ==> a[1..][k] == a[k + 1];
      SplitAtNewline(a[1..], b);
      assert [a[0]] + a[1..] == a;
    }
  }

  /** Splitting newline-free lines joined with newlines gives the lines back. */
  lemma {:induction false} SplitJoin(ls: seq<string>)
    requires |ls| >= 1
    requires forall k :: 0 <= k < |ls| ==> NoNewline(ls[k])
    ensures SplitLines(JoinWith("\n", ls)) == ls
    decreases |ls|
  {
    if |ls| == 1 {
      SplitWithoutNewline(ls[0]);
    } else {
      SplitJoin(ls[1..]);
      SplitAtNewline(ls[0], JoinWith("\n", ls[1..]));
      assert [ls[0]] + ls[1..] == ls;
    }
  }

  // ---------------------------------------------------------------------
  // Rendering tiles

  /** The line the scripts write for a tile:
      `    { "x": X, "y": Y, "type": "T" }`. */
  function TileLine(t: Tile): string
  {
    "    { \"x\": " + IntToString(t.x) + ", \"y\": " + IntToString(t.y)
      + ", \"type\": \"" + t.kind + "\" }"
  }

  function TileLines(ts: seq<Tile>): (r: seq<string>)
    ensures |r| == |ts| && forall k :: 0 <= k < |ts| ==> r[k] == TileLine(ts[k])
  {
    seq(|ts|, k requires 0 <= k < |ts| => TileLine(ts[k]))
  }

  /** Each line followed by a comma, except the last. */
  function CommaRows(ls: seq<string>): (r: seq<string>)
    ensures |r| == |ls|
  {
    seq(|ls|, k requires 0 <= k < |ls| => ls[k] + (if k < |ls| - 1 then "," else ""))
  }

  lemma NatToStringNoNewline(n: nat)
    ensures NoNewline(NatToString(n))
  {
    var s := NatToString(n);
    assert forall k :: 0 <= k < |s| ==> s[k] != '\n';
  }

  lemma TileLineNoNewline(t: Tile)
    requires NoNewline(t.kind)
    ensures NoNewline(TileLine(t))
  {
    IntToStringNoNewline(t.x);
    IntToStringNoNewline(t.y);
    var a := "    { \"x\": ";
    var b := ", \"y\": ";
    var c := ", \"type\": \"";
    var d := "\" }";
    assert NoNewline(a) && NoNewline(b) && NoNewline(c) && NoNewline(d);
    NoNewlineConcat(a, IntToString(t.x));
    NoNewlineConcat(a + IntToString(t.x), b);
    NoNewlineConcat(a + IntToString(t.x) + b, IntToString(t.y));
    NoNewlineConcat(a + IntToString(t.x) + b + IntToString(t.y), c);
    NoNewlineConcat(a + IntToString(t.x) + b + IntToString(t.y) + c, t.kind);
    NoNewlineConcat(a + IntToString(t.x) + b + IntToString(t.y) + c + t.kind, d);
  }

  lemma IntToStringNoNewline(n: int)
    ensures NoNewline(IntToString(n))
  {
    NatToStringNoNewline(if n < 0 then -n else n);
  }

  lemma NoNewlineConcat(a: string, b: string)
    requires NoNewline(a) && NoNewline(b)
    ensures NoNewline(a + b)
  {
  }

  /** Joining lines with ",\n" is joining their comma rows with "\n". */
  lemma {:induction false} JoinWithCommas(ls: seq<string>)
    ensures JoinWith(",\n", ls) == JoinWith("\n", CommaRows(ls))
    decreases |ls|
  {
    if |ls| >= 2 {
      JoinWithCommas(ls[1..]);
      assert CommaRows(ls)[1..] == CommaRows(ls[1..]);
      assert CommaRows(ls)[0] == ls[0] + ",";
    } else if |ls| == 1 {
      assert CommaRows(ls)[0] == ls[0];
    }
  }

  /** A ",\n"-joined file of newline-free lines reads back, line by line,
      as those lines with a comma on every one but the last. */
  lemma CommaFileLines(ls: seq<string>)
    requires |ls| >= 1
    requires forall k :: 0 <= k < |ls| ==> NoNewline(ls[k])
    ensures SplitLines(JoinWith(",\n", ls)) == CommaRows(ls)
  {
    JoinWithCommas(ls);
    CommaRowsNoNewline(ls);
    SplitJoin(CommaRows(ls));
  }

  lemma CommaRowsNoNewline(ls: seq<string>)
    requires forall k :: 0 <= k < |ls| ==> NoNewline(ls[k])
    ensures forall k :: 0 <= k < |ls| ==> NoNewline(CommaRows(ls)[k])
  {
    var rows := CommaRows(ls);
    forall k | 0 <= k < |rows| ensures NoNewline(rows[k]) {
      assert rows[k] == ls[k] + (if k < |ls| - 1 then "," else "");
      assert NoNewline(",");
      NoNewlineConcat(ls[k], if k < |ls| - 1 then "," else "");
    }
  }
}
