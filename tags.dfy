/**
 * The tag overlay of a world (`World.tag` and `World.count_tags` in gridsim/world.py),
 * stated over grids as values.
 *
 * The overlay holds one RGBA colour per cell, indexed `[y][x]`. A cell is tagged when
 * its alpha channel is not zero: tagging writes the colour with alpha 255, clearing
 * writes all zeros.
 */
module Tags {
  import opened Wrappers
  import opened Environments

  datatype Rgba = Rgba(r: byte, g: byte, b: byte, a: byte)

  const Untagged: Rgba := Rgba(0, 0, 0, 0)

  predicate IsTagged(c: Rgba)
  {
    c.a != 0
  }

  /** A grid of `h` rows of `w` cells. */
  predicate IsGrid(g: seq<seq<Rgba>>, w: nat, h: nat)
  {
    |g| == h && forall y :: 0 <= y < h ==> |g[y]| == w
  }

  predicate InBounds(w: nat, h: nat, x: int, y: int)
  {
    0 <= x < w && 0 <= y < h
  }

  /** The overlay of a new world: every cell untagged. */
  function Blank(w: nat, h: nat): (g: seq<seq<Rgba>>)
    ensures IsGrid(g, w, h)
    ensures forall y, x :: 0 <= y < h && 0 <= x < w ==> g[y][x] == Untagged
  {
    seq(h, y => seq(w, x => Untagged))
  }

  /** An accepted colour: three channels, each in [0, 255]. */
  predicate ValidColor(c: seq<int>)
  {
    |c| == 3 && forall i :: 0 <= i < 3 ==> 0 <= c[i] <= 255
  }

  datatype TagError =
    | InvalidColor   // ValueError: not a 3-tuple in [0, 255]
    | OutOfBounds    // ValueError: position outside the world

  /** Two grids of the same shape are equal when they agree cell by cell. */
  lemma GridsEqual(a: seq<seq<Rgba>>, b: seq<seq<Rgba>>, w: nat, h: nat)
    requires IsGrid(a, w, h) && IsGrid(b, w, h)
    requires forall y, x :: 0 <= y < h && 0 <= x < w ==> a[y][x] == b[y][x]
    ensures a == b
  {
    forall y | 0 <= y < h
      ensures a[y] == b[y]
    {
      assert forall x :: 0 <= x < w ==> a[y][x] == b[y][x];
    }
  }

  /** The grid with cell `(x, y)` replaced by `c`. */
  function Write(g: seq<seq<Rgba>>, x: nat, y: nat, c: Rgba): seq<seq<Rgba>>
    requires y < |g| && x < |g[y]|
  {
    g[y := g[y][x := c]]
  }

  /**
   * `tag(pos, color)`: `None` clears the cell; a colour is checked first, then the
   * position, and written with full alpha. Only the tagged cell changes.
   */
  function TagGrid(g: seq<seq<Rgba>>, w: nat, h: nat, x: int, y: int, color: Option<seq<int>>): (r: Result<seq<seq<Rgba>>, TagError>)
    requires IsGrid(g, w, h)
    requires color.None? ==> InBounds(w, h, x, y)
    ensures color.Some? && !ValidColor(color.value) ==> r == Failure(InvalidColor)
    ensures color.Some? && ValidColor(color.value) && !InBounds(w, h, x, y) ==> r == Failure(OutOfBounds)
    ensures r.Success? <==> color.None? || (ValidColor(color.value) && InBounds(w, h, x, y))
    ensures r.Success? ==>
              && IsGrid(r.value, w, h)
              && (forall j, i :: 0 <= j < h && 0 <= i < w && (j, i) != (y, x) ==> r.value[j][i] == g[j][i])
              && (color.None? ==> r.value[y][x] == Untagged)
              && (color.Some? ==> var c := color.value;
                    r.value[y][x] == Rgba(c[0] as byte, c[1] as byte, c[2] as byte, 255) && IsTagged(r.value[y][x]))
  {
    match color
    case None => Success(Write(g, x, y, Untagged))
    case Some(c) =>
      if !ValidColor(c) then Failure(InvalidColor)
      else if !InBounds(w, h, x, y) then Failure(OutOfBounds)
      else Success(Write(g, x, y, Rgba(c[0] as byte, c[1] as byte, c[2] as byte, 255)))
  }

  function CountRow(row: seq<Rgba>): nat
  {
    if row == [] then 0 else (if IsTagged(row[0]) then 1 else 0) + CountRow(row[1..])
  }

  /** `count_tags`: the number of cells whose alpha is not zero. */
  function Count(g: seq<seq<Rgba>>): nat
  {
    if g == [] then 0 else CountRow(g[0]) + Count(g[1..])
  }

  lemma {:induction false} CountRowWrite(row: seq<Rgba>, x: nat, c: Rgba)
    requires x < |row|
    ensures CountRow(row[x := c]) == CountRow(row) - (if IsTagged(row[x]) then 1 else 0) + (if IsTagged(c) then 1 else 0)
  {
    if x > 0 {
      assert row[x := c][1..] == row[1..][x - 1 := c];
      CountRowWrite(row[1..], x - 1, c);
    } else {
      assert row[x := c][1..] == row[1..];
    }
  }

  /** Writing one cell changes the count only by what that cell was and what it becomes. */
  lemma {:induction false} CountWrite(g: seq<seq<Rgba>>, x: nat, y: nat, c: Rgba)
    requires y < |g| && x < |g[y]|
    ensures Count(Write(g, x, y, c)) == Count(g) - (if IsTagged(g[y][x]) then 1 else 0) + (if IsTagged(c) then 1 else 0)
  {
    if y > 0 {
      assert Write(g, x, y, c)[1..] == Write(g[1..], x, y - 1, c);
      CountWrite(g[1..], x, y - 1, c);
    } else {
      assert Write(g, x, y, c)[1..] == g[1..];
      CountRowWrite(g[0], x, c);
    }
  }

  /** Tagging an untagged cell raises the count by one. */
  lemma TagUntaggedCountsOne(g: seq<seq<Rgba>>, w: nat, h: nat, x: int, y: int, c: seq<int>)
    requires IsGrid(g, w, h) && InBounds(w, h, x, y) && ValidColor(c) && !IsTagged(g[y][x])
    ensures TagGrid(g, w, h, x, y, Some(c)).Success?
    ensures Count(TagGrid(g, w, h, x, y, Some(c)).value) == Count(g) + 1
  {
    CountWrite(g, x, y, Rgba(c[0] as byte, c[1] as byte, c[2] as byte, 255));
  }

  /** Clearing a tagged cell lowers the count by one; clearing an untagged cell leaves it. */
  lemma ClearCount(g: seq<seq<Rgba>>, w: nat, h: nat, x: int, y: int)
    requires IsGrid(g, w, h) && InBounds(w, h, x, y)
    ensures Count(TagGrid(g, w, h, x, y, None).value) == Count(g) - (if IsTagged(g[y][x]) then 1 else 0)
  {
    CountWrite(g, x, y, Untagged);
  }

  lemma {:induction false} CountRowBound(row: seq<Rgba>)
    ensures CountRow(row) <= |row|
  {
    if row != [] {
      CountRowBound(row[1..]);
    }
  }

  /** No more cells are tagged than the grid has. */
  lemma {:induction false} CountBound(g: seq<seq<Rgba>>, w: nat, h: nat)
    requires IsGrid(g, w, h)
    ensures Count(g) <= w * h
  {
    if h > 0 {
      CountRowBound(g[0]);
      CountBound(g[1..], w, h - 1);
      assert w * h == w + w * (h - 1);
    }
  }

  lemma {:induction false} CountRowZero(row: seq<Rgba>)
    ensures CountRow(row) == 0 <==> forall i :: 0 <= i < |row| ==> !IsTagged(row[i])
  {
    if row != [] {
      CountRowZero(row[1..]);
      assert forall i :: 1 <= i < |row| ==> row[i] == row[1..][i - 1];
    }
  }

  /** The count is zero exactly when no cell is tagged; a new world's overlay counts zero. */
  lemma {:induction false} CountZero(g: seq<seq<Rgba>>)
    ensures Count(g) == 0 <==> forall y, x :: 0 <= y < |g| && 0 <= x < |g[y]| ==> !IsTagged(g[y][x])
  {
    if g != [] {
      CountRowZero(g[0]);
      CountZero(g[1..]);
      assert forall y :: 1 <= y < |g| ==> g[y] == g[1..][y - 1];
    }
  }

  /** Tagging a cell with a colour and then clearing it restores the cell and leaves its neighbours alone. */
  lemma TagThenClear(g: seq<seq<Rgba>>, w: nat, h: nat, x: int, y: int, c: seq<int>)
    requires IsGrid(g, w, h) && InBounds(w, h, x, y) && ValidColor(c)
    ensures var tagged := TagGrid(g, w, h, x, y, Some(c)).value;
            var cleared := TagGrid(tagged, w, h, x, y, None).value;
            && !IsTagged(cleared[y][x])
            && (forall j, i :: 0 <= j < h && 0 <= i < w && (j, i) != (y, x) ==> cleared[j][i] == g[j][i])
  {
  }
}
