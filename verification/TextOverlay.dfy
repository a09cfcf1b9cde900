/** Drawing text into a flat RGB frame: the clipped blit loops equal a per-pixel specification. */
module TextOverlay {
  import opened Words

  /** A rendered glyph as the font engine leaves it in the slot: offsets of its bitmap from the pen,
      its size, its coverage bytes row by row, and the pen advance in 1/64 pixel. */
  datatype Glyph = Glyph(left: int, top: int, width: nat, rows: nat, buffer: seq<Byte>, advance: int) {
    predicate Valid() {
      |buffer| == rows * width < TWO_32
    }
  }

  /** A newline, or a character together with the slot contents after trying to load it. */
  datatype Item = Newline | Char(glyph: Glyph)

  datatype Position = LeftTop | LeftBottom | RightTop | RightBottom | Center

  const X_BOX := 300
  const Y_BOX := 100
  const MARGIN := 50
  const LINE := 20

  // ---- Where the pen starts ----

  /** The intended start, as signed arithmetic. */
  function StartX(pos: Position, width: nat): int {
    match pos
    case LeftTop => MARGIN
    case LeftBottom => MARGIN
    case RightTop => width - X_BOX + MARGIN
    case RightBottom => width - X_BOX + MARGIN
    case Center => width / 2 - X_BOX
  }

  function StartY(pos: Position, height: nat): int {
    match pos
    case LeftTop => MARGIN
    case LeftBottom => height - Y_BOX + MARGIN
    case RightTop => MARGIN
    case RightBottom => height - Y_BOX + MARGIN
    case Center => height / 2 - Y_BOX
  }

  lemma StartIsLiteral(width: nat, height: nat)
    ensures StartX(LeftTop, width) == StartX(LeftBottom, width) == 50
    ensures StartX(RightTop, width) == StartX(RightBottom, width) == width - 250
    ensures StartX(Center, width) == width / 2 - 300
    ensures StartY(LeftTop, height) == StartY(RightTop, height) == 50
    ensures StartY(LeftBottom, height) == StartY(RightBottom, height) == height - 50
    ensures StartY(Center, height) == height / 2 - 100
  {
  }

  /** The start as computed: the size is unsigned, so each difference wraps and is then converted. */
  function MachineStartX(pos: Position, width: nat): int {
    match pos
    case LeftTop => MARGIN
    case LeftBottom => MARGIN
    case RightTop => Int32(U32(U32(width - X_BOX) + MARGIN))
    case RightBottom => Int32(U32(U32(width - X_BOX) + MARGIN))
    case Center => Int32(U32(width / 2 - X_BOX))
  }

  function MachineStartY(pos: Position, height: nat): int {
    match pos
    case LeftTop => MARGIN
    case LeftBottom => Int32(U32(U32(height - Y_BOX) + MARGIN))
    case RightTop => MARGIN
    case RightBottom => Int32(U32(U32(height - Y_BOX) + MARGIN))
    case Center => Int32(U32(height / 2 - Y_BOX))
  }

  /** The wrapped computation yields the intended signed position exactly when that position is
      representable; every size below 2^31 is fine. */
  lemma PenStartIsExact(pos: Position, width: nat, height: nat)
    requires width < TWO_32 && height < TWO_32
    ensures MachineStartX(pos, width) == StartX(pos, width) <==> StartX(pos, width) < TWO_31
    ensures MachineStartY(pos, height) == StartY(pos, height) <==> StartY(pos, height) < TWO_31
    ensures width < TWO_31 ==> FitsInt32(StartX(pos, width))
    ensures height < TWO_31 ==> FitsInt32(StartY(pos, height))
  {
    WrapAdd(width - X_BOX, MARGIN);
    WrapAdd(height - Y_BOX, MARGIN);
    WrapThenConvert(StartX(pos, width));
    WrapThenConvert(StartY(pos, height));
  }

  // ---- The per-pixel specification ----

  /** A glyph with the frame coordinates of its top left pixel. */
  datatype Placed = Placed(x: int, y: int, glyph: Glyph)

  function Layout(items: seq<Item>, origin: int, x: int, y: int): seq<Placed> {
    if items == [] then []
    else match items[0]
      case Newline => Layout(items[1..], origin, origin, y + LINE)
      case Char(g) => [Placed(x + g.left, y - g.top, g)] + Layout(items[1..], origin, x + g.advance / 64, y)
  }

  /** The glyph's bitmap is inked in column `p` of row `q`. */
  predicate Inked(g: Glyph, p: int, q: int) {
    && 0 <= p < g.width && 0 <= q < g.rows
    && 0 <= q * g.width + p < |g.buffer| && g.buffer[q * g.width + p] != 0
  }

  /** Bitmaps are read row by row, each row from left to right. */
  lemma InkIsDirect(g: Glyph, p: int, q: int)
    requires g.Valid() && 0 <= p < g.width && 0 <= q < g.rows
    ensures 0 <= q * g.width + p < |g.buffer|
    ensures Inked(g, p, q) <==> g.buffer[q * g.width + p] != 0
  {
    CellBound(p, q, g.width, g.rows);
  }

  predicate Covers(pl: Placed, i: int, j: int) {
    Inked(pl.glyph, i - pl.x, j - pl.y)
  }

  ghost predicate AllValid(pls: seq<Placed>) {
    forall k :: 0 <= k < |pls| ==> pls[k].glyph.Valid()
  }

  // ---- Layout, item by item ----

  /** The pen's column before item `n`: back at the start after a newline, moved by each character. */
  function PenX(items: seq<Item>, n: nat, origin: int, x: int): int
    requires n <= |items|
  {
    if n == 0 then x
    else match items[n - 1]
      case Newline => origin
      case Char(g) => PenX(items, n - 1, origin, x) + g.advance / 64
  }

  function Newlines(items: seq<Item>, n: nat): nat
    requires n <= |items|
  {
    if n == 0 then 0 else Newlines(items, n - 1) + if items[n - 1].Newline? then 1 else 0
  }

  /** Item `n` is a character, drawn as `pl`: at the pen, one line of twenty pixels down per newline
      before it. */
  predicate PlacedAs(items: seq<Item>, n: nat, origin: int, x: int, y: int, pl: Placed)
    requires n < |items|
  {
    && items[n].Char? && pl.glyph == items[n].glyph
    && pl.x == PenX(items, n, origin, x) + pl.glyph.left
    && pl.y == y + 20 * Newlines(items, n) - pl.glyph.top
  }

  lemma {:induction false} PenTail(items: seq<Item>, n: nat, origin: int, x: int)
    requires n < |items|
    ensures var x' := match items[0] case Newline => origin case Char(g) => x + g.advance / 64;
            PenX(items, n + 1, origin, x) == PenX(items[1..], n, origin, x')
    ensures Newlines(items, n + 1) == Newlines(items[1..], n) + if items[0].Newline? then 1 else 0
  {
    if n > 0 {
      PenTail(items, n - 1, origin, x);
      assert items[1..][n - 1] == items[n];
    }
  }

  lemma PlacedTail(items: seq<Item>, n: nat, origin: int, x: int, y: int, pl: Placed)
    requires 0 < n < |items|
    ensures var x' := match items[0] case Newline => origin case Char(g) => x + g.advance / 64;
            var y' := if items[0].Newline? then y + 20 else y;
            PlacedAs(items, n, origin, x, y, pl) <==> PlacedAs(items[1..], n - 1, origin, x', y', pl)
  {
    PenTail(items, n - 1, origin, x);
    assert items[1..][n - 1] == items[n];
  }

  /** The layout consists of exactly the characters, each where the items before it put it. */
  lemma {:induction false} LayoutIsExact(items: seq<Item>, origin: int, x: int, y: int, pl: Placed)
    ensures pl in Layout(items, origin, x, y) <==> exists n :: 0 <= n < |items| && PlacedAs(items, n, origin, x, y, pl)
    decreases |items|
  {
    if items != [] {
      var x' := match items[0] case Newline => origin case Char(g) => x + g.advance / 64;
      var y' := if items[0].Newline? then y + 20 else y;
      var tail := items[1..];
      LayoutIsExact(tail, origin, x', y', pl);
      forall n | 0 < n < |items|
        ensures PlacedAs(items, n, origin, x, y, pl) <==> PlacedAs(tail, n - 1, origin, x', y', pl)
      {
        PlacedTail(items, n, origin, x, y, pl);
      }
      if pl in Layout(tail, origin, x', y') {
        var n :| 0 <= n < |tail| && PlacedAs(tail, n, origin, x', y', pl);
        assert PlacedAs(items, n + 1, origin, x, y, pl);
      }
      if items[0].Char? {
        assert PlacedAs(items, 0, origin, x, y, pl) <==> pl == Layout(items, origin, x, y)[0];
      }
    }
  }

  // ---- Pictures ----

  /** The pixels, as (column, row), that some placed glyph covers. */
  ghost function Cover(pl: Placed): iset<(int, int)>
  {
    iset t: (int, int) | Covers(pl, t.0, t.1)
  }

  ghost predicate CoveredBy(pls: seq<Placed>, i: int, j: int)
    requires AllValid(pls)
  {
    exists k :: 0 <= k < |pls| && Covers(pls[k], i, j)
  }

  ghost function CoverAll(pls: seq<Placed>): iset<(int, int)>
    requires AllValid(pls)
  {
    iset t: (int, int) | CoveredBy(pls, t.0, t.1)
  }

  function PixelOf(b: nat, w: nat): (int, int)
    requires w > 0
  {
    (b / 3 % w, b / 3 / w)
  }

  /** `new` is `old` with exactly the bytes of the lit pixels set to 255. */
  ghost predicate Painted(new': seq<Byte>, old': seq<Byte>, w: nat, lit: iset<(int, int)>)
    requires w > 0
  {
    |new'| == |old'| &&
    forall b :: 0 <= b < |old'| ==> new'[b] == if PixelOf(b, w) in lit then 255 else old'[b]
  }

  lemma PaintCompose(a: seq<Byte>, b: seq<Byte>, c: seq<Byte>, w: nat, first: iset<(int, int)>, second: iset<(int, int)>)
    requires w > 0 && Painted(b, a, w, first) && Painted(c, b, w, second)
    ensures Painted(c, a, w, first + second)
  {
  }

  /** Drawing the same pixels again changes nothing, and the order of two drawings does not matter. */
  lemma PaintingCommutes(a: seq<Byte>, b: seq<Byte>, c: seq<Byte>, b': seq<Byte>, c': seq<Byte>, w: nat,
                         first: iset<(int, int)>, second: iset<(int, int)>)
    requires w > 0 && Painted(b, a, w, first) && Painted(c, b, w, second)
    requires Painted(b', a, w, second) && Painted(c', b', w, first)
    ensures c == c'
    ensures first == second ==> c == b
  {
  }

  // ---- Indexing ----

  lemma CellBound(p: nat, q: nat, width: nat, rows: nat)
    requires p < width && q < rows
    ensures q * width + p < rows * width
  {
    assert (q + 1) * width <= rows * width;
  }

  lemma PixelNumber(n: nat, i: nat, j: nat, w: nat)
    requires i < w
    ensures (n % w, n / w) == (i, j) <==> n == j * w + i
  {
    DivMod(i, j, w);
    Decompose(n, w);
  }

  /** The byte offset as computed, in 32-bit unsigned arithmetic throughout. */
  function MachineIndex(i: nat, j: nat, w: nat, channel: nat): nat {
    U32(U32(U32(U32(j * w) + i) * 3) + channel)
  }

  lemma MachineIndexIsModular(i: nat, j: nat, w: nat, channel: nat)
    ensures MachineIndex(i, j, w, channel) == U32((j * w + i) * 3 + channel)
  {
    WrapAdd(j * w, i);
    WrapTriple(j * w + i);
    WrapAdd((j * w + i) * 3, channel);
  }

  lemma OffsetInside(n: nat, total: nat, channel: nat)
    requires n < total && channel < 3
    ensures U32(n * 3 + channel) < total * 3
    ensures total * 3 <= TWO_32 ==> U32(n * 3 + channel) == n * 3 + channel
  {
  }

  /** Every computed offset stays inside the buffer, even where it wraps. */
  lemma WritesStayInside(i: nat, j: nat, w: nat, h: nat, channel: nat)
    requires i < w && j < h && channel < 3
    ensures MachineIndex(i, j, w, channel) < w * h * 3
    ensures w * h * 3 <= TWO_32 ==> MachineIndex(i, j, w, channel) == (j * w + i) * 3 + channel
  {
    MachineIndexIsModular(i, j, w, channel);
    CellBound(i, j, w, h);
    OffsetInside(j * w + i, h * w, channel);
    assert h * w == w * h;
  }

  /** All offsets address the intended byte exactly when the frame is at most 2^32 bytes. */
  lemma IndexingIsExact(w: nat, h: nat)
    requires 0 < w && 0 < h
    ensures (forall i: nat, j: nat, c: nat :: i < w && j < h && c < 3 ==> MachineIndex(i, j, w, c) == (j * w + i) * 3 + c)
       <==> w * h * 3 <= 0x1_0000_0000
  {
    if w * h * 3 <= TWO_32 {
      forall i: nat, j: nat, c: nat | i < w && j < h && c < 3
        ensures MachineIndex(i, j, w, c) == (j * w + i) * 3 + c
      {
        WritesStayInside(i, j, w, h, c);
      }
    } else {
      assert (h - 1) * w + (w - 1) == w * h - 1;
      assert MachineIndex(w - 1, h - 1, w, 2) < TWO_32;
    }
  }

  // ---- The loops ----

  /** Sets the three bytes of one pixel. */
  method SetPixel(surface: array<Byte>, w: nat, h: nat, i: nat, j: nat)
    requires surface.Length == w * h * 3 && i < w && j < h
    modifies surface
    ensures w * h * 3 <= TWO_32 ==> Painted(surface[..], old(surface[..]), w, iset{(i, j)})
  {
    WritesStayInside(i, j, w, h, 0);
    WritesStayInside(i, j, w, h, 1);
    WritesStayInside(i, j, w, h, 2);
    surface[MachineIndex(i, j, w, 0)] := 255;
    surface[MachineIndex(i, j, w, 1)] := 255;
    surface[MachineIndex(i, j, w, 2)] := 255;
    if w * h * 3 <= TWO_32 {
      forall b | 0 <= b < surface.Length
        ensures surface[b] == if PixelOf(b, w) in iset{(i as int, j as int)} then 255 else old(surface[..])[b]
      {
        PixelNumber(b / 3, i, j, w);
      }
    }
  }

  /** The part of a glyph's cover in row `j`, left of column `i`. */
  ghost function RowPart(pl: Placed, i: int, j: int): iset<(int, int)>
    requires pl.glyph.Valid()
  {
    iset t: (int, int) | Covers(pl, t.0, t.1) && t.1 == j && t.0 < i
  }

  lemma RowPartGrows(pl: Placed, i: int, j: int)
    requires pl.glyph.Valid()
    ensures RowPart(pl, i + 1, j) == RowPart(pl, i, j) + if Covers(pl, i, j) then iset{(i, j)} else iset{}
  {
  }

  /** The part of a glyph's cover above row `j`. */
  ghost function Above(pl: Placed, j: int): iset<(int, int)>
    requires pl.glyph.Valid()
  {
    iset t: (int, int) | Covers(pl, t.0, t.1) && t.1 < j
  }

  predicate InRange(pl: Placed) {
    && pl.glyph.Valid()
    && FitsInt32(pl.x) && FitsInt32(pl.y)
    && pl.x + pl.glyph.width < TWO_31 && pl.y + pl.glyph.rows < TWO_31
  }

  lemma PaintMore(now: seq<Byte>, before: seq<Byte>, w: nat, h: nat, lit: iset<(int, int)>, lit': iset<(int, int)>)
    requires w > 0 && |before| == w * h * 3 && Painted(now, before, w, lit)
    requires forall x, y :: 0 <= x < w && 0 <= y < h ==> ((x, y) in lit <==> (x, y) in lit')
    ensures Painted(now, before, w, lit')
  {
    forall b | 0 <= b < |before|
      ensures PixelOf(b, w) in lit <==> PixelOf(b, w) in lit'
    {
      PixelInFrame(b, w, h);
    }
  }

  lemma PixelInFrame(b: nat, w: nat, h: nat)
    requires w > 0 && b < w * h * 3
    ensures 0 <= PixelOf(b, w).0 < w && 0 <= PixelOf(b, w).1 < h
  {
    var n := b / 3;
    Scaled(h, n / w, w);
    Decompose(n, w);
  }

  /** Offset plus size as computed: the size is unsigned, so the sum wraps and is then converted. */
  lemma EndIsExact(start: int, size: nat)
    requires FitsInt32(start) && start + size < TWO_31
    ensures Int32(U32(U32(start) + size)) == start + size
  {
    WrapAdd(start, size);
    WrapThenConvert(start + size);
  }

  /** The inner loop: row `q` of a glyph. */
  method BlitRow(surface: array<Byte>, w: nat, h: nat, pl: Placed, q: nat)
    requires surface.Length == w * h * 3 && InRange(pl) && q < pl.glyph.rows
    modifies surface
    ensures 0 < w && w * h * 3 <= TWO_32 ==>
              Painted(surface[..], old(surface[..]), w, RowPart(pl, pl.x + pl.glyph.width, pl.y + q))
  {
    var g := pl.glyph;
    var xMax := Int32(U32(U32(pl.x) + g.width));
    EndIsExact(pl.x, g.width);
    var i, p, j := pl.x, 0, pl.y + q;
    while i < xMax
      invariant 0 <= p <= g.width && i == pl.x + p
      invariant 0 < w && w * h * 3 <= TWO_32 ==> Painted(surface[..], old(surface[..]), w, RowPart(pl, i, j))
    {
      ghost var before := surface[..];
      InkIsDirect(g, p, q);
      if !(i < 0 || j < 0 || i >= w || j >= h) && g.buffer[q * g.width + p] != 0 {
        SetPixel(surface, w, h, i, j);
        if w * h * 3 <= TWO_32 {
          PaintCompose(old(surface[..]), before, surface[..], w, RowPart(pl, i, j), iset{(i, j)});
          RowPartGrows(pl, i, j);
        }
      } else if 0 < w && w * h * 3 <= TWO_32 {
        RowPartGrows(pl, i, j);
        PaintMore(surface[..], old(surface[..]), w, h, RowPart(pl, i, j), RowPart(pl, i + 1, j));
      }
      i, p := i + 1, p + 1;
    }
  }

  /** The outer loop: all rows of a glyph. */
  method BlitGlyph(surface: array<Byte>, w: nat, h: nat, pl: Placed)
    requires surface.Length == w * h * 3 && InRange(pl)
    modifies surface
    ensures 0 < w && w * h * 3 <= TWO_32 ==> Painted(surface[..], old(surface[..]), w, Cover(pl))
  {
    var yMax := Int32(U32(U32(pl.y) + pl.glyph.rows));
    EndIsExact(pl.y, pl.glyph.rows);
    var j, q := pl.y, 0;
    while j < yMax
      invariant 0 <= q <= pl.glyph.rows && j == pl.y + q
      invariant 0 < w && w * h * 3 <= TWO_32 ==> Painted(surface[..], old(surface[..]), w, Above(pl, j))
    {
      ghost var before := surface[..];
      BlitRow(surface, w, h, pl, q);
      if 0 < w && w * h * 3 <= TWO_32 {
        ghost var row := RowPart(pl, pl.x + pl.glyph.width, j);
        PaintCompose(old(surface[..]), before, surface[..], w, Above(pl, j), row);
        assert Above(pl, j + 1) == Above(pl, j) + row;
      }
      j, q := j + 1, q + 1;
    }
    assert Above(pl, pl.y + pl.glyph.rows) == Cover(pl);
  }

  /** No pen position and no glyph corner leaves the range of a 32-bit signed integer. */
  predicate Representable(items: seq<Item>, origin: int, x: int, y: int) {
    && FitsInt32(origin) && FitsInt32(x) && FitsInt32(y)
    && (items != [] ==>
          match items[0]
          case Newline => Representable(items[1..], origin, origin, y + LINE)
          case Char(g) => InRange(Placed(x + g.left, y - g.top, g)) && Representable(items[1..], origin, x + g.advance / 64, y))
  }

  lemma CoveredBySubset(pls: seq<Placed>, pls': seq<Placed>, i: int, j: int)
    requires AllValid(pls) && AllValid(pls') && CoveredBy(pls, i, j)
    requires forall k :: 0 <= k < |pls| ==> pls[k] in pls'
    ensures CoveredBy(pls', i, j)
  {
    var k :| 0 <= k < |pls| && Covers(pls[k], i, j);
    var k' :| 0 <= k' < |pls'| && pls'[k'] == pls[k];
    assert Covers(pls'[k'], i, j);
  }

  /** Only which glyphs are placed where matters, not the order in which they are drawn. */
  lemma OrderOfGlyphsIsIrrelevant(pls: seq<Placed>, pls': seq<Placed>)
    requires AllValid(pls) && AllValid(pls')
    requires forall k :: 0 <= k < |pls| ==> pls[k] in pls'
    requires forall k :: 0 <= k < |pls'| ==> pls'[k] in pls
    ensures CoverAll(pls) == CoverAll(pls')
  {
  }

  lemma CoveredByAppend(pls: seq<Placed>, pl: Placed, i: int, j: int)
    requires AllValid(pls) && pl.glyph.Valid() && AllValid(pls + [pl])
    ensures CoveredBy(pls + [pl], i, j) <==> CoveredBy(pls, i, j) || Covers(pl, i, j)
  {
    var more := pls + [pl];
    if CoveredBy(more, i, j) {
      var k :| 0 <= k < |more| && Covers(more[k], i, j);
      assert k < |pls| ==> more[k] == pls[k];
    }
    if CoveredBy(pls, i, j) {
      CoveredBySubset(pls, more, i, j);
    }
    assert more[|pls|] == pl;
  }

  lemma CoverAllAppend(pls: seq<Placed>, pl: Placed)
    requires AllValid(pls) && pl.glyph.Valid()
    ensures AllValid(pls + [pl]) && CoverAll(pls + [pl]) == CoverAll(pls) + Cover(pl)
  {
    forall t: (int, int)
      ensures CoveredBy(pls + [pl], t.0, t.1) <==> CoveredBy(pls, t.0, t.1) || Covers(pl, t.0, t.1)
    {
      CoveredByAppend(pls, pl, t.0, t.1);
    }
  }

  /** `now` is `start` with the glyphs `done` drawn, as far as a frame of this size can be addressed. */
  ghost predicate Drawn(now: seq<Byte>, start: seq<Byte>, w: nat, h: nat, done: seq<Placed>) {
    && AllValid(done)
    && (0 < w && w * h * 3 <= TWO_32 ==> Painted(now, start, w, CoverAll(done)))
  }

  /** One more glyph on top of those already drawn. */
  method DrawNext(surface: array<Byte>, w: nat, h: nat, pl: Placed, ghost done: seq<Placed>, ghost start: seq<Byte>)
    requires surface.Length == w * h * 3 && InRange(pl) && Drawn(surface[..], start, w, h, done)
    modifies surface
    ensures Drawn(surface[..], start, w, h, done + [pl])
  {
    ghost var before := surface[..];
    BlitGlyph(surface, w, h, pl);
    CoverAllAppend(done, pl);
    if 0 < w && w * h * 3 <= TWO_32 {
      PaintCompose(start, before, surface[..], w, CoverAll(done), Cover(pl));
    }
  }

  lemma LayoutStep(items: seq<Item>, n: nat, origin: int, x: int, y: int)
    requires n < |items| && Representable(items[n..], origin, x, y)
    ensures match items[n]
            case Newline =>
              && Representable(items[n + 1..], origin, origin, y + LINE)
              && Layout(items[n..], origin, x, y) == Layout(items[n + 1..], origin, origin, y + LINE)
              && Int32(y + LINE) == y + LINE
            case Char(g) =>
              && Representable(items[n + 1..], origin, x + g.advance / 64, y)
              && Layout(items[n..], origin, x, y)
                 == [Placed(x + g.left, y - g.top, g)] + Layout(items[n + 1..], origin, x + g.advance / 64, y)
              && InRange(Placed(x + g.left, y - g.top, g))
              && Int32(x + g.advance / 64) == x + g.advance / 64
              && Int32(x + g.left) == x + g.left && Int32(y - g.top) == y - g.top
  {
  }

  /** The body of the loop over the string. */
  method DrawItem(surface: array<Byte>, w: nat, h: nat, items: seq<Item>, n: nat, origin: int, penX: int, penY: int,
                  ghost done: seq<Placed>, ghost start: seq<Byte>)
    returns (penX': int, penY': int, ghost done': seq<Placed>)
    requires surface.Length == w * h * 3 && n < |items|
    requires Representable(items[n..], origin, penX, penY) && Drawn(surface[..], start, w, h, done)
    modifies surface
    ensures Representable(items[n + 1..], origin, penX', penY') && Drawn(surface[..], start, w, h, done')
    ensures done' + Layout(items[n + 1..], origin, penX', penY') == done + Layout(items[n..], origin, penX, penY)
  {
    LayoutStep(items, n, origin, penX, penY);
    match items[n] {
      case Newline =>
        penX', penY', done' := origin, Int32(penY + LINE), done;
      case Char(g) =>
        var pl := Placed(Int32(penX + g.left), Int32(penY - g.top), g);
        DrawNext(surface, w, h, pl, done, start);
        penX', penY', done' := Int32(penX + g.advance / 64), penY, done + [pl];
    }
  }

  // ---- What is seen ----

  /** Item `n` is a character whose bitmap is inked at column `i` and row `j` of the frame. */
  predicate LitBy(items: seq<Item>, n: nat, x0: int, y0: int, i: int, j: int)
    requires n < |items|
  {
    && items[n].Char?
    && var g := items[n].glyph;
       Inked(g, i - (PenX(items, n, x0, x0) + g.left), j - (y0 + 20 * Newlines(items, n) - g.top))
  }

  predicate Lit(items: seq<Item>, x0: int, y0: int, i: int, j: int) {
    exists n :: 0 <= n < |items| && LitBy(items, n, x0, y0, i, j)
  }

  lemma LitByIsCovers(items: seq<Item>, n: nat, x0: int, y0: int, pl: Placed, i: int, j: int)
    requires n < |items| && PlacedAs(items, n, x0, x0, y0, pl)
    ensures LitBy(items, n, x0, y0, i, j) <==> Covers(pl, i, j)
  {
  }

  lemma CoveredIsLit(items: seq<Item>, x0: int, y0: int, pl: Placed, i: int, j: int)
    requires pl in Layout(items, x0, x0, y0) && Covers(pl, i, j)
    ensures Lit(items, x0, y0, i, j)
  {
    LayoutIsExact(items, x0, x0, y0, pl);
    var n :| 0 <= n < |items| && PlacedAs(items, n, x0, x0, y0, pl);
    LitByIsCovers(items, n, x0, y0, pl, i, j);
  }

  lemma LitIsPlaced(items: seq<Item>, n: nat, x0: int, y0: int, i: int, j: int) returns (pl: Placed)
    requires n < |items| && LitBy(items, n, x0, y0, i, j)
    ensures pl in Layout(items, x0, x0, y0) && Covers(pl, i, j)
  {
    var g := items[n].glyph;
    pl := Placed(PenX(items, n, x0, x0) + g.left, y0 + 20 * Newlines(items, n) - g.top, g);
    assert PlacedAs(items, n, x0, x0, y0, pl);
    LitByIsCovers(items, n, x0, y0, pl, i, j);
    LayoutIsExact(items, x0, x0, y0, pl);
  }

  lemma LitIsCovered(items: seq<Item>, x0: int, y0: int, i: int, j: int)
    requires AllValid(Layout(items, x0, x0, y0))
    ensures Lit(items, x0, y0, i, j) <==> CoveredBy(Layout(items, x0, x0, y0), i, j)
  {
    var pls := Layout(items, x0, x0, y0);
    if k :| 0 <= k < |pls| && Covers(pls[k], i, j) {
      CoveredIsLit(items, x0, y0, pls[k], i, j);
    } else if n :| 0 <= n < |items| && LitBy(items, n, x0, y0, i, j) {
      var pl := LitIsPlaced(items, n, x0, y0, i, j);
      assert false;
    }
  }

  /** The three bytes from `at` are white, or as they were. */
  predicate WhiteOrSame(now: seq<Byte>, before: seq<Byte>, at: int, white: bool) {
    && |now| == |before| && 0 <= at && at + 2 < |now|
    && now[at..at + 3] == if white then [255, 255, 255] else before[at..at + 3]
  }

  /** Every pixel of the frame is white if some character is inked there, and untouched otherwise. */
  ghost predicate ShowsText(now: seq<Byte>, before: seq<Byte>, w: nat, h: nat, x0: int, y0: int, items: seq<Item>) {
    forall i, j :: 0 <= i < w && 0 <= j < h ==>
      WhiteOrSame(now, before, (j * w + i) * 3, Lit(items, x0, y0, i, j))
  }

  lemma DrawnTextShows(now: seq<Byte>, before: seq<Byte>, w: nat, h: nat, x0: int, y0: int, items: seq<Item>)
    requires |before| == w * h * 3 <= TWO_32 && Drawn(now, before, w, h, Layout(items, x0, x0, y0))
    ensures ShowsText(now, before, w, h, x0, y0, items)
  {
    var pls := Layout(items, x0, x0, y0);
    forall i, j | 0 <= i < w && 0 <= j < h
      ensures WhiteOrSame(now, before, (j * w + i) * 3, Lit(items, x0, y0, i, j))
    {
      PaintedPixel(now, before, w, h, pls, i, j, 0);
      PaintedPixel(now, before, w, h, pls, i, j, 1);
      PaintedPixel(now, before, w, h, pls, i, j, 2);
      LitIsCovered(items, x0, y0, i, j);
    }
  }

  /** Draws a string. For any frame of at most 2^32 bytes the result is the original with exactly the
      pixels covered by the laid-out glyphs turned white; larger frames are still not overrun. */
  method RenderStringToFrame(surface: array<Byte>, w: nat, h: nat, pos: Position, items: seq<Item>)
    requires w < TWO_32 && h < TWO_32 && surface.Length == w * h * 3
    requires Representable(items, StartX(pos, w), StartX(pos, w), StartY(pos, h))
    modifies surface
    ensures Drawn(surface[..], old(surface[..]), w, h, Layout(items, StartX(pos, w), StartX(pos, w), StartY(pos, h)))
    ensures w * h * 3 <= 0x1_0000_0000 ==>
              ShowsText(surface[..], old(surface[..]), w, h, StartX(pos, w), StartY(pos, h), items)
  {
    var penX, penY := MachineStartX(pos, w), MachineStartY(pos, h);
    PenStartIsExact(pos, w, h);
    var origin := penX;
    ghost var all := Layout(items, origin, penX, penY);
    ghost var done: seq<Placed> := [];
    var n := 0;
    assert items[0..] == items;
    while n < |items|
      invariant 0 <= n <= |items|
      invariant Representable(items[n..], origin, penX, penY)
      invariant all == done + Layout(items[n..], origin, penX, penY)
      invariant Drawn(surface[..], old(surface[..]), w, h, done)
    {
      penX, penY, done := DrawItem(surface, w, h, items, n, origin, penX, penY, done, old(surface[..]));
      n := n + 1;
    }
    assert all == done;
    if w * h * 3 <= TWO_32 {
      DrawnTextShows(surface[..], old(surface[..]), w, h, StartX(pos, w), StartY(pos, h), items);
    }
  }

  /** What `Painted` says about one channel of one pixel. */
  lemma PaintedPixel(now: seq<Byte>, before: seq<Byte>, w: nat, h: nat, pls: seq<Placed>, i: nat, j: nat, channel: nat)
    requires AllValid(pls) && |before| == w * h * 3 && i < w && j < h && channel < 3
    requires Painted(now, before, w, CoverAll(pls))
    ensures (j * w + i) * 3 + channel < |now| == |before|
    ensures now[(j * w + i) * 3 + channel]
         == if CoveredBy(pls, i, j) then 255 else before[(j * w + i) * 3 + channel]
  {
    CellBound(i, j, w, h);
    var b := (j * w + i) * 3 + channel;
    assert b / 3 == j * w + i;
    DivMod(i, j, w);
    assert PixelOf(b, w) == (i, j);
  }
}
