/**
 * Sheet geometry (fftcg/grid.py): a grid of x columns by y rows of card
 * slots, whose last slot is reserved for the card back, the chunking of a
 * card list into sheets, and the pixel offset at which a slot is pasted.
 */
module Grids {
  import opened Wrappers
  import opened PyInt

  /** An (x, y) pair: columns and rows of a sheet, or width and height in pixels. */
  datatype Grid = Grid(x: int, y: int)

  /** A card image as the loader delivers it: where it came from, and its pixel size. */
  datatype Image = Image(source: string, width: int, height: int)

  /** `grid.capacity`: every slot but the last, which holds the back. */
  function Capacity(g: Grid): int { g.x * g.y - 1 }

  /** `grid * other`: the componentwise product, as a plain pair. */
  function Mul(g: Grid, other: Grid): (p: (int, int))
    ensures p.0 == g.x * other.x && p.1 == g.y * other.y
  {
    (g.x * other.x, g.y * other.y)
  }

  function Min(a: int, b: int): int { if a <= b then a else b }

  /** The sheets `chunks(whole)` yields: slices of `n` items, the last possibly shorter. */
  function ChunksOf<T>(s: seq<T>, n: int): seq<seq<T>>
    requires n >= 1 || s == []
    decreases |s|
  {
    if s == [] then [] else [s[..Min(n, |s|)]] + ChunksOf(s[Min(n, |s|)..], n)
  }

  function Flatten<T>(ss: seq<seq<T>>): seq<T> {
    if ss == [] then [] else ss[0] + Flatten(ss[1..])
  }

  /** `grid.chunks(whole)`: the loop rebinds `whole` to what is left after each chunk. */
  method Chunks<T>(g: Grid, whole: seq<T>) returns (chunks: seq<seq<T>>)
    requires Capacity(g) >= 1 || whole == []
    ensures chunks == ChunksOf(whole, Capacity(g))
    ensures Flatten(chunks) == whole
    ensures whole == [] <==> chunks == []
  {
    var n := Capacity(g);
    chunks := [];
    var rest := whole;
    while rest != []
      invariant n >= 1 || rest == []
      invariant chunks + ChunksOf(rest, n) == ChunksOf(whole, n)
      decreases |rest|
    {
      var cut := Min(n, |rest|);
      chunks := chunks + [rest[..cut]];
      rest := rest[cut..];
    }
    ChunksConcat(whole, n);
  }

  /** Concatenating the chunks gives back the list. */
  lemma {:induction false} ChunksConcat<T>(s: seq<T>, n: int)
    requires n >= 1 || s == []
    ensures Flatten(ChunksOf(s, n)) == s
    decreases |s|
  {
    if s != [] {
      var k := Min(n, |s|);
      ChunksConcat(s[k..], n);
      assert ChunksOf(s, n)[1..] == ChunksOf(s[k..], n);
      assert s == s[..k] + s[k..];
    }
  }

  /** Every chunk but the last has exactly `n` items; the last has between 1 and `n`. */
  lemma {:induction false} ChunksShape<T>(s: seq<T>, n: int)
    requires n >= 1 || s == []
    ensures var c := ChunksOf(s, n);
            (forall i :: 0 <= i < |c| - 1 ==> |c[i]| == n)
            && (c != [] ==> 1 <= |c[|c| - 1]| <= n)
    decreases |s|
  {
    if s != [] {
      var k := Min(n, |s|);
      ChunksShape(s[k..], n);
      var c := ChunksOf(s, n);
      assert c[1..] == ChunksOf(s[k..], n);
      if |s| > n {
        assert s[k..] != [];
      }
    }
  }

  /** There are ceil(|s| / n) chunks; an empty list has none. */
  lemma {:induction false} ChunksCount<T>(s: seq<T>, n: int)
    requires n >= 1
    ensures |ChunksOf(s, n)| == (|s| + n - 1) / n
    decreases |s|
  {
    if s == [] {
      DivUnique(n - 1, n, 0, n - 1);
    } else if |s| <= n {
      DivUnique(|s| + n - 1, n, 1, |s| - 1);
      assert s[Min(n, |s|)..] == [];
    } else {
      ChunksCount(s[n..], n);
      assert |ChunksOf(s, n)| == 1 + |ChunksOf(s[n..], n)|;
      CeilStep(|s|, n);
    }
  }

  /** One more chunk's worth of items is one more chunk. */
  lemma CeilStep(len: int, n: int)
    requires n >= 1 && len > n
    ensures (len + n - 1) / n == 1 + (len - n + n - 1) / n
  {
    var a := len - 1;
    var q, r := a / n, a % n;
    DivUnique(a, n, q, r);
    assert n * (q + 1) == n * q + n;
    DivUnique(len + n - 1, n, q + 1, r);
  }

  /** Chunk k is the slice of items k*n up to (k+1)*n. */
  lemma {:induction false} ChunkAt<T>(s: seq<T>, n: int, k: nat)
    requires n >= 1 && k < |ChunksOf(s, n)|
    ensures k * n < |s|
    ensures ChunksOf(s, n)[k] == s[k * n..Min((k + 1) * n, |s|)]
    decreases k
  {
    ChunksUnfold(s, n, k);
    if k > 0 {
      ChunkAt(s[n..], n, k - 1);
      MulStep(k, n);
      SliceOfRest(s, n, (k - 1) * n, Min(k * n, |s| - n));
    }
  }

  /** The first chunk, and the chunks after it, which are those of the rest. */
  lemma ChunksUnfold<T>(s: seq<T>, n: int, k: nat)
    requires n >= 1 && k < |ChunksOf(s, n)|
    ensures k == 0 ==> ChunksOf(s, n)[0] == s[0 * n..Min(1 * n, |s|)] && 0 * n < |s|
    ensures k > 0 ==> |s| > n && k - 1 < |ChunksOf(s[n..], n)| && ChunksOf(s, n)[k] == ChunksOf(s[n..], n)[k - 1]
  {
    var m := Min(n, |s|);
    assert ChunksOf(s, n)[1..] == ChunksOf(s[m..], n);
    if k > 0 {
      assert s[m..] != [];
    }
  }

  lemma MulStep(k: int, n: int)
    ensures (k - 1) * n + n == k * n && k * n + n == (k + 1) * n
  {
  }

  lemma SliceOfRest<T>(s: seq<T>, n: int, lo: int, hi: int)
    requires 0 <= n <= |s| && 0 <= lo <= hi <= |s| - n
    ensures s[n..][lo..hi] == s[n + lo..n + hi]
  {
  }

  /** With a 1x1 grid the loop never ends: taking the chunk removes nothing. */
  lemma ZeroCapacityStalls<T>(g: Grid, whole: seq<T>)
    requires Capacity(g) == 0 && whole != []
    ensures whole[Capacity(g)..] == whole
  {
  }

  /** Python's `s[n:]`: a negative start counts from the end, and one past either end is clamped. */
  function DropFrom<T>(s: seq<T>, n: int): (r: seq<T>)
    ensures |r| <= |s|
  {
    if n >= 0 then (if n <= |s| then s[n..] else [])
    else if -n <= |s| then s[|s| + n..] else s
  }

  /**
   * A grid with no cells (x * y <= 0, so capacity is negative) never ends
   * either: `whole[capacity:]` keeps the last items of a non-empty list.
   */
  lemma NoCellsStall<T>(g: Grid, whole: seq<T>)
    requires Capacity(g) < 0 && whole != []
    ensures DropFrom(whole, Capacity(g)) == whole[|whole| - Min(-Capacity(g), |whole|)..]
    ensures DropFrom(whole, Capacity(g)) != []
  {
  }

  /** Offset of slot `index` on a sheet, for a pasted image of size (w, h). */
  function SlotPosition(g: Grid, index: int, w: int, h: int): Result<(int, int)> {
    if g.x == 0 then Err("ZeroDivisionError: integer division or modulo by zero")
    else Ok((FloorMod(index, g.x) * w, FloorDiv(index, g.x) * h))
  }

  lemma MulMono(b: int, k: int)
    requires b > 0 && k >= 1
    ensures b * k >= b
  {
  }

  /** A positive multiple of `b` is at least `b`; a negative one at most `-b`. */
  lemma MulSign(b: int, k: int)
    requires b > 0
    ensures k >= 1 ==> b * k >= b
    ensures k == 0 ==> b * k == 0
    ensures k <= -1 ==> b * k <= -b
  {
    if k >= 1 {
      MulMono(b, k);
    } else if k <= -1 {
      MulMono(b, -k);
      assert b * k == -(b * (-k));
    }
  }

  /** Floor division by a positive divisor is determined by quotient and remainder. */
  lemma DivUnique(a: int, b: int, q: int, r: int)
    requires b > 0 && a == b * q + r && 0 <= r < b
    ensures FloorDiv(a, b) == q && FloorMod(a, b) == r
    ensures a / b == q && a % b == r
  {
    var q1, r1 := FloorDiv(a, b), FloorMod(a, b);
    assert b * (q1 - q) == b * q1 - b * q;
    MulSign(b, q1 - q);
  }

  /** Distinct slots are pasted at distinct positions. */
  lemma SlotPositionsDistinct(g: Grid, i: int, j: int, w: int, h: int)
    requires g.x > 0 && w > 0 && h > 0
    ensures SlotPosition(g, i, w, h) == SlotPosition(g, j, w, h) ==> i == j
  {
    var qi, ri, qj, rj := FloorDiv(i, g.x), FloorMod(i, g.x), FloorDiv(j, g.x), FloorMod(j, g.x);
    if SlotPosition(g, i, w, h) == SlotPosition(g, j, w, h) {
      assert ri * w == rj * w && qi * h == qj * h;
      assert (rj - ri) * w == rj * w - ri * w;
      MulSign(w, rj - ri);
      assert (qj - qi) * h == qj * h - qi * h;
      MulSign(h, qj - qi);
      assert i == g.x * qi + ri && j == g.x * qj + rj;
    }
  }

  lemma MulLe(a: int, b: int, c: int)
    requires a <= b && c > 0
    ensures a * c <= b * c
  {
    assert b * c - a * c == c * (b - a);
    MulSign(c, b - a);
  }

  /** A slot of the grid lies inside the page, whose size is grid * image size. */
  lemma SlotInsidePage(g: Grid, i: int, w: int, h: int)
    requires g.x > 0 && g.y > 0 && w > 0 && h > 0 && 0 <= i < g.x * g.y
    ensures var p := SlotPosition(g, i, w, h).value;
            0 <= p.0 && p.0 + w <= Mul(g, Grid(w, h)).0
            && 0 <= p.1 && p.1 + h <= Mul(g, Grid(w, h)).1
  {
    var q, r := FloorDiv(i, g.x), FloorMod(i, g.x);
    RowInside(g, i);
    CellInside(r, g.x, w);
    CellInside(q, g.y, h);
  }

  /** The row of a slot of the grid is one of its rows. */
  lemma RowInside(g: Grid, i: int)
    requires g.x > 0 && g.y > 0 && 0 <= i < g.x * g.y
    ensures 0 <= FloorDiv(i, g.x) < g.y && 0 <= FloorMod(i, g.x) < g.x
  {
    var q := FloorDiv(i, g.x);
    assert g.x * (q - g.y) == g.x * q - g.x * g.y;
    MulSign(g.x, q - g.y);
    MulSign(g.x, q);
  }

  /** Cell `c` of `n` cells of size `w` lies within `n * w`. */
  lemma CellInside(c: int, n: int, w: int)
    requires 0 <= c < n && w > 0
    ensures 0 <= c * w && c * w + w <= n * w
  {
    MulSign(w, c);
    assert c * w + w == (c + 1) * w;
    MulLe(c + 1, n, w);
  }

  /** The back's slot `capacity` is the bottom-right cell. */
  lemma BackSlotBottomRight(g: Grid, w: int, h: int)
    requires g.x > 0 && g.y > 0
    ensures SlotPosition(g, Capacity(g), w, h) == Ok(((g.x - 1) * w, (g.y - 1) * h))
  {
    assert g.x * g.y - 1 == g.x * (g.y - 1) + (g.x - 1);
    DivUnique(Capacity(g), g.x, g.y - 1, g.x - 1);
  }

  /** A sheet image being composed: which image was pasted at which pixel offset. */
  class Page {
    const size: (int, int)
    var cells: map<(int, int), Image>

    constructor(size: (int, int))
      ensures this.size == size && cells == map[]
    {
      this.size := size;
      cells := map[];
    }
  }

  /** `grid.paste(page, index, card)` */
  method Paste(g: Grid, page: Page, index: int, card: Image) returns (r: Result<(int, int)>)
    modifies page
    ensures r == SlotPosition(g, index, card.width, card.height)
    ensures r.Ok? ==> page.cells == old(page.cells)[r.value := card]
    ensures r.Err? ==> page.cells == old(page.cells)
  {
    r := SlotPosition(g, index, card.width, card.height);
    if r.Ok? {
      page.cells := page.cells[r.value := card];
    }
  }
}
