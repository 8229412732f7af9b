/** Building the two grids of a game: the icon board, dealt from the
    player's images in shuffled pairs, and the grid of revealed flags. */
module Board {
  import opened Layout
  import opened Groups

  /** Number of distinct images a board holds: one per pair of boxes. */
  const NumImagesUsed: int := BoardWidth * BoardHeight / 2

  /** The board-shaped grid with every flag equal to `val`. */
  function FilledGrid(val: bool): (r: seq<seq<bool>>)
    ensures Shaped(r)
    ensures forall c :: InRange(c) ==> At(r, c) == val
  {
    seq(BoardWidth, _ => seq(BoardHeight, _ => val))
  }

  /** A fresh grid of revealed flags, every box set to `val`, appended
      column by column. */
  method GenerateRevealedBoxesData(val: bool) returns (revealedBoxes: seq<seq<bool>>)
    ensures Shaped(revealedBoxes)
    ensures forall x, y :: 0 <= x < BoardWidth && 0 <= y < BoardHeight ==> revealedBoxes[x][y] == val
    ensures revealedBoxes == FilledGrid(val)
  {
    revealedBoxes := [];
    for i := 0 to BoardWidth
      invariant |revealedBoxes| == i
      invariant forall x :: 0 <= x < i ==> revealedBoxes[x] == seq(BoardHeight, _ => val)
    {
      revealedBoxes := revealedBoxes + [seq(BoardHeight, _ => val)];
    }
  }

  /** Python's `random.shuffle`: some rearrangement of the same elements.
      Which one is left to the random number generator and not modelled. */
  method Shuffle<T(==)>(s: seq<T>) returns (r: seq<T>)
    ensures multiset(r) == multiset(s)
  {
    r :| multiset(r) == multiset(s);
  }

  /** The board's boxes, read column by column, hold a selection of
      `NumImagesUsed` of the images, each of them twice. */
  ghost predicate DealtInPairs<Icon(!new)>(board: seq<seq<Icon>>, images: seq<Icon>) {
    exists used: multiset<Icon> ::
      used <= multiset(images) && |used| == NumImagesUsed &&
      multiset(Concat(board)) == used + used
  }

  /** Popping the last element splits the multiset of a list. */
  lemma PopSplits<T>(s: seq<T>)
    requires s != []
    ensures multiset(s) == multiset(s[..|s| - 1]) + multiset{s[|s| - 1]}
  {
    assert s == s[..|s| - 1] + [s[|s| - 1]];
  }

  /** A prefix holds part of the list's elements. */
  lemma PrefixSubMultiset<T>(s: seq<T>, k: nat)
    requires k <= |s|
    ensures multiset(s[..k]) <= multiset(s)
  {
    assert s == s[..k] + s[k..];
  }

  /** Builds a board: shuffle the images, keep the first `NumImagesUsed`,
      double them, shuffle again, and fill each column by popping from the
      end of the doubled list. Popping from an empty list fails, so the
      caller must supply at least `NumImagesUsed` images. */
  method GetRandomizedBoard<Icon(==,!new)>(images: seq<Icon>) returns (board: seq<seq<Icon>>)
    requires |images| >= NumImagesUsed
    ensures Shaped(board)
    ensures DealtInPairs(board, images)
  {
    var shuffled := Shuffle(images);
    assert |shuffled| == |multiset(shuffled)| == |images|;
    var used := shuffled[..NumImagesUsed];
    var pool := Shuffle(used + used);
    ghost var pairs := multiset(used) + multiset(used);
    assert |pool| == |multiset(pool)| == BoardWidth * BoardHeight;
    board := [];
    for x := 0 to BoardWidth
      invariant |board| == x
      invariant forall i :: 0 <= i < x ==> |board[i]| == BoardHeight
      invariant |pool| == BoardWidth * BoardHeight - BoardHeight * x
      invariant multiset(Concat(board)) + multiset(pool) == pairs
    {
      var column := [];
      for y := 0 to BoardHeight
        invariant |column| == y
        invariant |pool| == BoardWidth * BoardHeight - BoardHeight * x - y
        invariant multiset(Concat(board)) + multiset(column) + multiset(pool) == pairs
      {
        PopSplits(pool);
        column := column + [pool[|pool| - 1]];
        pool := pool[..|pool| - 1];
      }
      ConcatAppend(board, column);
      board := board + [column];
    }
    PrefixSubMultiset(shuffled, NumImagesUsed);
    assert multiset(used) <= multiset(images) && |multiset(used)| == NumImagesUsed;
    assert multiset(Concat(board)) == multiset(used) + multiset(used);
  }

  /** No image occurs twice in the list. */
  predicate Distinct<T(==)>(s: seq<T>) {
    forall i, j :: 0 <= i < j < |s| ==> s[i] != s[j]
  }

  lemma {:induction false} DistinctOccursOnce<T>(s: seq<T>, v: T)
    requires Distinct(s)
    ensures multiset(s)[v] <= 1
  {
    if s != [] {
      assert s == [s[0]] + s[1..];
      assert Distinct(s[1..]);
      DistinctOccursOnce(s[1..], v);
      if s[0] == v {
        assert v !in s[1..];
      }
    }
  }

  /** A multiset in which nothing repeats has as many distinct elements as
      it has elements. */
  lemma {:induction false} DistinctElementsOfSimpleMultiset<T>(m: multiset<T>)
    requires forall v :: m[v] <= 1
    ensures |set v | v in m| == |m|
  {
    if m != multiset{} {
      var v :| v in m;
      var rest := m - multiset{v};
      DistinctElementsOfSimpleMultiset(rest);
      assert (set u | u in m) == (set u | u in rest) + {v};
    }
  }

  /** The pairing invariant: when the player's images are distinct (as
      separately loaded pictures are), a dealt board uses exactly
      `NumImagesUsed` of them and puts each in exactly two boxes. */
  lemma PairingInvariant<Icon(!new)>(board: seq<seq<Icon>>, images: seq<Icon>)
    requires Distinct(images) && DealtInPairs(board, images)
    ensures forall v :: v in Concat(board) ==> v in images && multiset(Concat(board))[v] == 2
    ensures |set v | v in Concat(board)| == NumImagesUsed
  {
    var used: multiset<Icon> :| used <= multiset(images) && |used| == NumImagesUsed &&
      multiset(Concat(board)) == used + used;
    forall v ensures used[v] <= 1 {
      DistinctOccursOnce(images, v);
    }
    DistinctElementsOfSimpleMultiset(used);
    forall v ensures v in Concat(board) <==> v in used {
      assert v in Concat(board) <==> v in multiset(Concat(board));
    }
    assert (set v | v in Concat(board)) == (set v | v in used);
  }
}
