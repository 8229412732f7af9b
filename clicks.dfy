/** The click resolver: a pending first pick, a grid of revealed flags
    updated in place, and the win test. */
module Clicks {
  import opened Wrappers
  import opened Layout
  import opened Board

  /** The game's grid of revealed flags, `columns[x][y]`, kept by the main
      loop and changed in place by each click. */
  class RevealedBoxes {
    var columns: seq<seq<bool>>

    constructor (columns: seq<seq<bool>>)
      ensures this.columns == columns
    {
      this.columns := columns;
    }
  }

  /** The grid with the flag at one box replaced and every other box kept. */
  function Set(grid: seq<seq<bool>>, b: Box, v: bool): (r: seq<seq<bool>>)
    requires Shaped(grid) && InRange(b)
    ensures Shaped(r)
    ensures forall c :: InRange(c) ==> At(r, c) == if c == b then v else At(grid, c)
  {
    grid[b.x := grid[b.x][b.y := v]]
  }

  /** Every flag of every column is set: the game is won. */
  predicate AllRevealed(revealed: seq<seq<bool>>) {
    forall x, y :: 0 <= x < |revealed| && 0 <= y < |revealed[x]| ==> revealed[x][y]
  }

  /** The win test: scans the columns and stops at the first one that
      still holds a hidden box. */
  method HasWon(revealedBoxes: seq<seq<bool>>) returns (won: bool)
    ensures won <==> AllRevealed(revealedBoxes)
  {
    for i := 0 to |revealedBoxes|
      invariant forall x, y :: 0 <= x < i && 0 <= y < |revealedBoxes[x]| ==> revealedBoxes[x][y]
    {
      if false in revealedBoxes[i] {
        return false;
      }
    }
    return true;
  }

  /** A selection, when present, names a box of the board. */
  predicate OnBoard(sel: Option<Box>) {
    sel.Some? ==> InRange(sel.value)
  }

  /** What one click leaves behind: the revealed flags, the pending first
      pick, and whether the win celebration is started. */
  datatype Transition = Transition(revealed: seq<seq<bool>>, selection: Option<Box>, gameWon: bool)

  /** The resolver's rule for a click that landed on box `hit` (None when
      it landed on no box), given the pending first pick `first`. */
  function Click<Icon(==)>(board: seq<seq<Icon>>, revealed: seq<seq<bool>>,
                           first: Option<Box>, hit: Option<Box>): (t: Transition)
    requires Shaped(board) && Shaped(revealed) && OnBoard(first) && OnBoard(hit)
    ensures Shaped(t.revealed) && OnBoard(t.selection)
  {
    if hit.None? || At(revealed, hit.value) then Transition(revealed, first, false)
    else
      var b := hit.value;
      var shown := Set(revealed, b, true);
      if first.None? then Transition(shown, Some(b), false)
      else
        var a := first.value;
        if At(board, b) == At(board, a) then Transition(shown, None, AllRevealed(shown))
        else Transition(Set(Set(shown, b, false), a, false), None, false)
  }

  /** Handles a mouse click at pixel (mousex, mousey): looks up the box
      under it and, if that box is hidden, reveals it; a first pick becomes
      the pending selection, a second pick is kept revealed together with
      the first when their icons are equal and covered again with it when
      they differ. Returns the new pending selection, and whether a
      matching pick completed the board. */
  method HandleMouseClick<Icon(==)>(board: seq<seq<Icon>>, revealed: RevealedBoxes,
                                    firstSelection: Option<Box>, mousex: int, mousey: int)
    returns (selection: Option<Box>, gameWon: bool)
    requires Shaped(board) && Shaped(revealed.columns) && OnBoard(firstSelection)
    modifies revealed
    ensures Transition(revealed.columns, selection, gameWon)
         == Click(board, old(revealed.columns), firstSelection, BoxAtPixel(mousex, mousey))
  {
    selection, gameWon := firstSelection, false;
    var hit := GetBoxAtPixel(mousex, mousey);
    if hit.Some? {
      var b := hit.value;
      if !revealed.columns[b.x][b.y] {
        revealed.columns := Set(revealed.columns, b, true);
        if selection.None? {
          selection := Some(b);
        } else {
          var a := selection.value;
          if board[b.x][b.y] == board[a.x][a.y] {
            gameWon := HasWon(revealed.columns);
          } else {
            revealed.columns := Set(revealed.columns, b, false);
            revealed.columns := Set(revealed.columns, a, false);
          }
          selection := None;
        }
      }
    }
  }

  // ---------------------------------------------------------------------
  // Properties of the resolver

  /** A click that lands on no box, or on a box already face up, changes
      nothing and keeps the pending selection. */
  lemma ClickIgnored<Icon>(board: seq<seq<Icon>>, revealed: seq<seq<bool>>,
                               first: Option<Box>, hit: Option<Box>)
    requires Shaped(board) && Shaped(revealed) && OnBoard(first) && OnBoard(hit)
    requires hit.None? || At(revealed, hit.value)
    ensures Click(board, revealed, first, hit) == Transition(revealed, first, false)
  {
  }

  /** A click at a pixel that lies in a gap, in a margin or off the board
      changes nothing. */
  lemma ClickOffBoard<Icon>(board: seq<seq<Icon>>, revealed: seq<seq<bool>>,
                                first: Option<Box>, x: int, y: int)
    requires Shaped(board) && Shaped(revealed) && OnBoard(first)
    requires forall b :: InRange(b) ==> !OnBox(b, x, y)
    ensures Click(board, revealed, first, BoxAtPixel(x, y)) == Transition(revealed, first, false)
  {
    BoxAtPixelOffBoard(x, y);
  }

  /** A click at a pixel inside the square of box `b` acts on `b`. */
  lemma ClickOnBox<Icon>(board: seq<seq<Icon>>, revealed: seq<seq<bool>>,
                             first: Option<Box>, b: Box, x: int, y: int)
    requires Shaped(board) && Shaped(revealed) && OnBoard(first)
    requires InRange(b) && OnBox(b, x, y)
    ensures Click(board, revealed, first, BoxAtPixel(x, y)) == Click(board, revealed, first, Some(b))
  {
    BoxAtPixelIsBoxUnderPixel(x, y, b);
  }

  /** The pending selection is face up. */
  predicate SelectionShown(revealed: seq<seq<bool>>, sel: Option<Box>)
    requires Shaped(revealed)
  {
    sel.Some? ==> InRange(sel.value) && At(revealed, sel.value)
  }

  /** Clicking the pending first pick again is not a second pick: nothing
      changes. */
  lemma ReclickPendingIgnored<Icon>(board: seq<seq<Icon>>, revealed: seq<seq<bool>>, a: Box)
    requires Shaped(board) && Shaped(revealed) && SelectionShown(revealed, Some(a))
    ensures Click(board, revealed, Some(a), Some(a)) == Transition(revealed, Some(a), false)
  {
  }

  /** With no pending selection, a click on a hidden box reveals exactly that
      box and makes it the pending selection. */
  lemma FirstPick<Icon>(board: seq<seq<Icon>>, revealed: seq<seq<bool>>, b: Box)
    requires Shaped(board) && Shaped(revealed) && InRange(b) && !At(revealed, b)
    ensures var t := Click(board, revealed, None, Some(b));
            t.selection == Some(b) && !t.gameWon &&
            forall c :: InRange(c) ==> At(t.revealed, c) == (c == b || At(revealed, c))
  {
  }

  /** Two grids of the board's shape are equal when they agree at every box. */
  lemma GridsEqual(g: seq<seq<bool>>, h: seq<seq<bool>>)
    requires Shaped(g) && Shaped(h)
    requires forall c :: InRange(c) ==> At(g, c) == At(h, c)
    ensures g == h
  {
    forall x | 0 <= x < BoardWidth ensures g[x] == h[x] {
      forall y | 0 <= y < BoardHeight ensures g[x][y] == h[x][y] {
        assert At(g, Box(x, y)) == At(h, Box(x, y));
      }
    }
  }

  /** With first pick `a` pending, a click on a hidden box `b` always clears
      the selection and touches no box other than `a` and `b`. Matching
      icons leave both face up, and the win celebration starts exactly when
      that completes the board; differing icons leave both face down. */
  lemma SecondPick<Icon>(board: seq<seq<Icon>>, revealed: seq<seq<bool>>, a: Box, b: Box)
    requires Shaped(board) && Shaped(revealed) && InRange(b) && !At(revealed, b)
    requires SelectionShown(revealed, Some(a))
    ensures var t := Click(board, revealed, Some(a), Some(b));
            && t.selection == None
            && (forall c :: InRange(c) && c != a && c != b ==> At(t.revealed, c) == At(revealed, c))
            && (At(board, a) == At(board, b) ==>
                  At(t.revealed, a) && At(t.revealed, b) && (t.gameWon <==> AllRevealed(t.revealed)))
            && (At(board, a) != At(board, b) ==>
                  !At(t.revealed, a) && !At(t.revealed, b) && !t.gameWon)
  {
  }

  /** Once every box is face up, no click changes anything. */
  lemma ClickAfterWin<Icon>(board: seq<seq<Icon>>, revealed: seq<seq<bool>>,
                                first: Option<Box>, hit: Option<Box>)
    requires Shaped(board) && Shaped(revealed) && OnBoard(first) && OnBoard(hit)
    requires AllRevealed(revealed)
    ensures Click(board, revealed, first, hit) == Transition(revealed, first, false)
  {
  }

  /** Box `c` has a partner: a different face-up box, not the pending pick,
      showing the same icon. */
  ghost predicate HasPartner<Icon>(board: seq<seq<Icon>>, revealed: seq<seq<bool>>, sel: Option<Box>, c: Box)
    requires Shaped(board) && Shaped(revealed) && InRange(c)
  {
    exists d :: InRange(d) && d != c && sel != Some(d) && At(revealed, d) && At(board, d) == At(board, c)
  }

  /** Every face-up box other than the pending pick has a partner: what is
      shown, apart from the current attempt, is made of matched pairs. */
  ghost predicate RevealedInPairs<Icon>(board: seq<seq<Icon>>, revealed: seq<seq<bool>>, sel: Option<Box>)
    requires Shaped(board) && Shaped(revealed)
  {
    forall c {:trigger HasPartner(board, revealed, sel, c)} ::
      InRange(c) && At(revealed, c) && sel != Some(c) ==> HasPartner(board, revealed, sel, c)
  }

  /** The state the main loop keeps between clicks. */
  ghost predicate GameInvariant<Icon>(board: seq<seq<Icon>>, revealed: seq<seq<bool>>, sel: Option<Box>) {
    Shaped(board) && Shaped(revealed) && SelectionShown(revealed, sel) && RevealedInPairs(board, revealed, sel)
  }

  /** A game starts with every box face down and no selection. */
  lemma GameStart<Icon>(board: seq<seq<Icon>>, revealed: seq<seq<bool>>)
    requires Shaped(board) && Shaped(revealed)
    requires forall c :: InRange(c) ==> !At(revealed, c)
    ensures GameInvariant(board, revealed, None)
  {
  }

  /** A first pick keeps the invariant: the new pending pick is face up and
      every other face-up box keeps its partner, which cannot be the box
      that was hidden until now. */
  lemma FirstPickKeepsInvariant<Icon>(board: seq<seq<Icon>>, revealed: seq<seq<bool>>, b: Box)
    requires GameInvariant(board, revealed, None) && InRange(b) && !At(revealed, b)
    ensures GameInvariant(board, Set(revealed, b, true), Some(b))
  {
    var r := Set(revealed, b, true);
    forall c | InRange(c) && At(r, c) && Some(b) != Some(c)
      ensures HasPartner(board, r, Some(b), c)
    {
      assert HasPartner(board, revealed, None, c);
      var d :| InRange(d) && d != c && At(revealed, d) && At(board, d) == At(board, c);
      assert At(r, d);
    }
  }

  /** A matching second pick keeps the invariant: the two picks are each
      other's partner. */
  lemma MatchKeepsInvariant<Icon>(board: seq<seq<Icon>>, revealed: seq<seq<bool>>, a: Box, b: Box)
    requires GameInvariant(board, revealed, Some(a)) && InRange(b) && !At(revealed, b)
    requires At(board, a) == At(board, b)
    ensures GameInvariant(board, Set(revealed, b, true), None)
  {
    var r := Set(revealed, b, true);
    forall c | InRange(c) && At(r, c)
      ensures HasPartner(board, r, None, c)
    {
      if c == a {
        assert At(r, b);
      } else if c == b {
        assert At(r, a);
      } else {
        assert HasPartner(board, revealed, Some(a), c);
        var d :| InRange(d) && d != c && Some(a) != Some(d) && At(revealed, d) && At(board, d) == At(board, c);
        assert At(r, d);
      }
    }
  }

  /** After a mismatch, the face-up boxes are those face up before, minus
      both picks. */
  lemma MismatchCells(revealed: seq<seq<bool>>, a: Box, b: Box)
    requires Shaped(revealed) && InRange(a) && InRange(b)
    ensures forall c :: InRange(c) ==>
      At(Set(Set(Set(revealed, b, true), b, false), a, false), c) == (c != a && c != b && At(revealed, c))
  {
  }

  /** A mismatched second pick keeps the invariant: both picks are face
      down again, and no remaining face-up box had either as its partner. */
  lemma MismatchKeepsInvariant<Icon>(board: seq<seq<Icon>>, revealed: seq<seq<bool>>, a: Box, b: Box)
    requires GameInvariant(board, revealed, Some(a)) && InRange(b) && !At(revealed, b)
    ensures GameInvariant(board, Set(Set(Set(revealed, b, true), b, false), a, false), None)
  {
    var r := Set(Set(Set(revealed, b, true), b, false), a, false);
    MismatchCells(revealed, a, b);
    forall c | InRange(c) && At(r, c)
      ensures HasPartner(board, r, None, c)
    {
      assert HasPartner(board, revealed, Some(a), c);
      var d :| InRange(d) && d != c && Some(a) != Some(d) && At(revealed, d) && At(board, d) == At(board, c);
      assert At(r, d);
    }
  }

  /** Every click keeps the pending pick face up and the rest of the
      face-up boxes in matched pairs. */
  lemma ClickKeepsInvariant<Icon>(board: seq<seq<Icon>>, revealed: seq<seq<bool>>,
                                  first: Option<Box>, hit: Option<Box>)
    requires GameInvariant(board, revealed, first) && OnBoard(hit)
    ensures var t := Click(board, revealed, first, hit);
            GameInvariant(board, t.revealed, t.selection)
  {
    if hit.Some? && !At(revealed, hit.value) {
      var b := hit.value;
      if first.None? {
        FirstPickKeepsInvariant(board, revealed, b);
      } else if At(board, b) == At(board, first.value) {
        MatchKeepsInvariant(board, revealed, first.value, b);
      } else {
        MismatchKeepsInvariant(board, revealed, first.value, b);
      }
    }
  }

  // ---------------------------------------------------------------------
  // A worked game on the 5 x 4 board

  /** From a fresh game (the grid `GenerateRevealedBoxesData(false)` builds),
      clicking pixel (20, 0), the corner of box (0, 0),
      and then pixel (140, 0), the corner of box (1, 0): with equal icons the
      two boxes stay face up and the selection is cleared; with different
      icons the board is face down again. */
  lemma TwoPicksScenario<Icon>(board: seq<seq<Icon>>)
    requires Shaped(board)
    ensures var t1 := Click(board, FilledGrid(false), None, BoxAtPixel(20, 0));
            var t2 := Click(board, t1.revealed, t1.selection, BoxAtPixel(140, 0));
            && t1.selection == Some(Box(0, 0))
            && t2.selection == None
            && (At(board, Box(0, 0)) == At(board, Box(1, 0)) ==>
                  forall c :: InRange(c) ==> At(t2.revealed, c) == (c == Box(0, 0) || c == Box(1, 0)))
            && (At(board, Box(0, 0)) != At(board, Box(1, 0)) ==> t2.revealed == FilledGrid(false))
  {
    var r0 := FilledGrid(false);
    ClickOnBox(board, r0, None, Box(0, 0), 20, 0);
    var t1 := Click(board, r0, None, Some(Box(0, 0)));
    ClickOnBox(board, t1.revealed, t1.selection, Box(1, 0), 140, 0);
    FirstPick(board, r0, Box(0, 0));
    SecondPick(board, t1.revealed, Box(0, 0), Box(1, 0));
    var t2 := Click(board, t1.revealed, t1.selection, Some(Box(1, 0)));
    if At(board, Box(0, 0)) != At(board, Box(1, 0)) {
      GridsEqual(t2.revealed, r0);
    }
  }
}
