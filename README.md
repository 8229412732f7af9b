# Memory puzzle: game-state model

This project models the game-state core of a memory (concentration) puzzle.
The player picks images that become the icons of a 5 × 4 board of face-down
boxes. Each click on a face-down box turns it face up; a click in a gap,
off the board or on a face-up box changes nothing. A second pick either keeps the pair
face up (equal icons) or covers both boxes again (different icons). The game
is won when every box is face up.

The model is written in Dafny in five modules:

- `Wrappers` (`wrappers.dfy`): `Option`, which stands for Python's `None`.
- `Layout` (`layout.dfy`):
  - the configuration constants, including the margins computed with Python's truncating `int(a / b)`;
  - the top-left corner of each box;
  - the half-open rule for a pixel lying inside a box's square;
  - an arithmetic reference function `BoxAtPixel`;
  - the scanning loop `GetBoxAtPixel`, proved equal to it.
- `Groups` (`groups.dfy`): `SplitIntoGroupsOf`, and `Concat`, which undoes it for a positive group size.
- `Board` (`board.dfy`):
  - the revealed-flags grid and `FilledGrid`, the value it builds;
  - the board dealt from twice-shuffled images in pairs;
  - the pairing invariant.
- `Clicks` (`clicks.dfy`):
  - the click resolver `HandleMouseClick`, which changes a `RevealedBoxes` object in place;
  - the win test `HasWon`;
  - the pure transition rule `Click` that specifies them;
  - lemmas on the transition rules and on a game invariant that every click keeps.

Both grids are lists of columns, indexed `grid[x][y]` as in the source.
`Concat(board)` lists a board's boxes column by column. Icons are a type
parameter that supports equality only: pygame surfaces compare by identity,
so separately loaded images are distinct.

Inputs from outside the game logic become parameters:
- `random.shuffle` is `Board.Shuffle`, which picks some permutation of its input (`:|` with a multiset equation).
- The mouse position read with `pygame.mouse.get_pos()` becomes the parameters `mousex`, `mousey` of `HandleMouseClick`.
- The call to `gameWonAnimation` becomes the result `gameWon`.

Two behaviours of the program shape the board contracts:
- Too few images: `getRandomizedBoard` has no error path. With fewer than 10 images, the `pop()` at memorypuzzle.py:103 raises IndexError. The only guard is the top-level check at memorypuzzle.py:234-237 that exactly 10 images were chosen. So `GetRandomizedBoard` *requires* at least `NumImagesUsed` images.
- Distinct icons: `getRandomizedBoard` never checks that its images are distinct. It keeps the first 10 of its shuffled input. The dealt board is therefore stated as a sub-multiset of the images, doubled. The lemma `PairingInvariant` proves that distinct inputs give 10 distinct icons, each used twice.

The model is for verification only. `Board.Shuffle` chooses its permutation with `:|`, which Dafny cannot compile, so neither it nor `GetRandomizedBoard` can be compiled.

## Model

| member | source | states |
|---|---|---|
| `Layout.TruncDiv` | memorypuzzle.py:15-16 | `int(a / b)` truncates toward zero: for non-negative `a` the quotient is the floor, for negative `a` it is the ceiling |
| `Layout.MarginValues` | memorypuzzle.py:15-16 | with the configured sizes, XMARGIN is 20 and YMARGIN is 0 |
| `Layout.EvenNumberOfBoxes` | memorypuzzle.py:14 | the configured board has an even number of boxes (the source's assertion) |
| `Layout.LeftTopCoordsOfBox` | memorypuzzle.py:115-118 | the top-left corner of a box; for a box on the board, its 110-pixel square lies entirely inside the 640 × 480 window |
| `Layout.OnBox` | memorypuzzle.py:164-165 | the `collidepoint` test of a box's square: the top-left corner pixel is inside, no pixel left of or above the corner is inside, and the pixels one square-width to the right or one square-height below are outside |
| `Layout.BoxesDisjoint` | memorypuzzle.py:115-118 | no pixel lies in the squares of two different boxes |
| `Layout.OffsetInSquare` | memorypuzzle.py:116-117 | along one axis, an offset lies in square `i` exactly when dividing by the 120-pixel pitch gives `i` and the remainder is under 110 |
| `Layout.BoxAtPixelIsBoxUnderPixel` | memorypuzzle.py:160-167 | the reference lookup returns box `b` if and only if `b` is on the board and the pixel is inside `b`'s half-open square |
| `Layout.BoxAtPixelOffBoard` | memorypuzzle.py:160-167 | a pixel inside no box square (a gap, a margin, off the board) gives `None` |
| `Layout.GetBoxAtPixel` | memorypuzzle.py:160-167 | the scanning loop returns the reference lookup's answer: an in-range box whose square holds the pixel, or `None` when no box square holds it |
| `Groups.ConcatAppend` | memorypuzzle.py:111 | appending a group appends its elements to the concatenation |
| `Groups.SplitIntoGroupsOf` | memorypuzzle.py:108-112 | for a positive size the groups concatenate back to the list, none is empty, each has at most `groupSize` elements, and all but the last have exactly `groupSize`; a negative size gives no groups |
| `Board.FilledGrid` | memorypuzzle.py:66-70 | the grid has the board's shape and every box's flag equals `val` |
| `Board.GenerateRevealedBoxesData` | memorypuzzle.py:66-70 | returns `BoardWidth` columns of `BoardHeight` flags, each equal to `val`: exactly `FilledGrid(val)` |
| `Board.Shuffle` | memorypuzzle.py:93-96 | the shuffled list is a permutation of its input |
| `Board.GetRandomizedBoard` | memorypuzzle.py:92-105 | returns `BoardWidth` columns of `BoardHeight` icons; the dealt icons are a `NumImagesUsed`-element sub-multiset of the images, doubled |
| `Board.DistinctOccursOnce` | memorypuzzle.py:92-105 | in a list with no repeats (separately loaded images), each value occurs at most once |
| `Board.DistinctElementsOfSimpleMultiset` | memorypuzzle.py:94-95 | a multiset without repeats has as many distinct elements as elements |
| `Board.PairingInvariant` | memorypuzzle.py:92-105 | with distinct images, every dealt icon is one of the images and fills exactly two boxes, and exactly `NumImagesUsed` distinct icons are used |
| `Clicks.Set` | memorypuzzle.py:143 | setting one flag changes that box and no other |
| `Clicks.HasWon` | memorypuzzle.py:225-229 | true if and only if every flag of every column is set |
| `Clicks.Click` | memorypuzzle.py:136-157 | the transition rule keeps the grid's shape and the selection on the board |
| `Clicks.HandleMouseClick` | memorypuzzle.py:136-157 | the new flags, the returned selection and the win signal are exactly what `Click` gives for the box under the clicked pixel |
| `Clicks.ClickIgnored` | memorypuzzle.py:140-141 | a click on no box or on a face-up box changes nothing and keeps the selection |
| `Clicks.ClickOffBoard` | memorypuzzle.py:138-140 | a click at a pixel inside no box square changes nothing and keeps the selection |
| `Clicks.ClickOnBox` | memorypuzzle.py:137-138 | a click at a pixel inside box `b`'s square acts on `b` |
| `Clicks.ReclickPendingIgnored` | memorypuzzle.py:141 | clicking the pending face-up first pick again changes nothing and keeps it pending |
| `Clicks.FirstPick` | memorypuzzle.py:141-146 | with no selection, clicking hidden box `b` turns exactly `b` face up and makes it the selection |
| `Clicks.SecondPick` | memorypuzzle.py:145-156 | with face-up pick `a` pending, clicking hidden box `b` clears the selection and changes no other box; equal icons leave both face up, and `gameWon` is true exactly when the board is then full; different icons leave both face down |
| `Clicks.ClickAfterWin` | memorypuzzle.py:140-141 | once every box is face up, no click changes anything |
| `Clicks.GridsEqual` | memorypuzzle.py:136-157 | two board-shaped grids that agree at every box are equal |
| `Clicks.GameStart` | memorypuzzle.py:41-44 | a fresh game (all boxes face down, no selection) satisfies the game invariant |
| `Clicks.FirstPickKeepsInvariant` | memorypuzzle.py:143-146 | a first pick keeps the pending pick face up and every other face-up box matched with a face-up partner |
| `Clicks.MatchKeepsInvariant` | memorypuzzle.py:143-148 | a matching second pick keeps the invariant; the two picks are each other's partners |
| `Clicks.MismatchCells` | memorypuzzle.py:151-155 | after a mismatch, the face-up boxes are those face up before, minus both picks |
| `Clicks.MismatchKeepsInvariant` | memorypuzzle.py:151-156 | a mismatched second pick keeps the invariant |
| `Clicks.ClickKeepsInvariant` | memorypuzzle.py:136-157 | every click keeps the pending pick face up and the other face-up boxes in matched pairs |
| `Clicks.TwoPicksScenario` | memorypuzzle.py:136-157 | on a fresh 5 × 4 game (`FilledGrid(false)`, what `GenerateRevealedBoxesData(false)` returns at line 42), clicks at pixels (20, 0) and then (140, 0) pick boxes (0, 0) and (1, 0); with equal icons exactly those two stay face up, with different icons the grid is all face down again |

## Left out

- Rendering and animation, which only produce draw calls: window and clock setup, `drawBoard`, `drawIcon`, `drawBoxCovers`, `drawHighlightBox` (never called), `revealBoxesAnimation`, `coverBoxesAnimation`, `startGameAnimation` and `gameWonAnimation`. The constants FPS, REVEALSPEED and the colours serve only these.
- The event loop in `main`: it is I/O. Its start state is covered by `GameStart` and its step by `ClickKeepsInvariant`.
- `select_images` (the tkinter file dialog), `loadImages` (pygame image loading and scaling) and the top-level check that exactly 10 images were selected: they are foreign calls. The check appears only as the precondition of `GetRandomizedBoard`.
- The one-second `pygame.time.wait` before covering a mismatched pair: it is a real-time pause. The mismatch transition is taken as one atomic step.
- `Board.Shuffle`: states only that its result is a permutation. It does not model the random generator or its uniform distribution.
- `Board.Shuffle`: works on a value. The first `random.shuffle` also reorders the caller's own list of images, and that side effect is not modelled.
- `Board.GetRandomizedBoard`: states which icons are dealt, and how many times each. It does not state which box gets which icon (the pop order from the end of the shuffled list), because that order is the random generator's choice.
- `Groups.SplitIntoGroupsOf`: requires a nonzero group size. It does not model the ValueError that `range(0, len(theList), 0)` raises at memorypuzzle.py:110, because the only caller (line 204) passes 8.
- `Clicks.HandleMouseClick`: requires both grids to have the board's shape and the pending selection to be on the board. The game only ever passes such values. Python's negative indexing of ragged or out-of-range lists is not modelled.
- `Clicks.SecondPick`: requires the pending first pick to be face up, as `ClickKeepsInvariant` guarantees. With a hidden pending pick, which the game never produces, a match would not turn it face up.
