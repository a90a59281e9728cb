/**
 * TriadeLines.py: one pick marker drawn as three vertical lines, one per
 * channel plot. Every setter applies to all three lines and every getter reads
 * the first. The lines agree on everything but their position: dragging one
 * line moves that line alone, until a setPos brings the other two along.
 */
module TriadeLines {
  /** An RGB pen. */
  datatype Pen = Pen(r: int, g: int, b: int)

  const Black := Pen(0, 0, 0)
  const Red := Pen(255, 0, 0)
  const Green := Pen(0, 255, 0)
  const HoverPen := Pen(255, 190, 11)

  /**
   * Which class built the marker: the plain VerticalTriadeLine (the crosshair),
   * PVerticalTriadeLine or SVerticalTriadeLine.
   */
  datatype Kind = Plain | PLine | SLine

  /** The state of one vertical line in one channel plot. */
  datatype LineState = LineState(pos: real, movable: bool, pen: Pen, hoverPen: Pen)

  class VerticalTriadeLine {
    const kind: Kind
    const basePen: Pen
    const hoverPen: Pen
    var lines: seq<LineState>

    /** The marker's invariant: three lines that agree on everything but their position. */
    ghost predicate Valid()
      reads this
    {
      && |lines| == 3
      && lines[1] == lines[0].(pos := lines[1].pos) && lines[2] == lines[0].(pos := lines[2].pos)
      && lines[0].hoverPen == hoverPen
      && hoverPen == HoverPen
      && basePen == (match kind case Plain => Black case PLine => Red case SLine => Green)
    }

    /** All three lines at one position. */
    ghost predicate Aligned()
      reads this
      requires Valid()
    {
      lines[1].pos == lines[0].pos && lines[2].pos == lines[0].pos
    }

    /** The three lines at `pos`, not movable, drawn with the kind's base pen. */
    constructor (kind: Kind, pos: real)
      ensures Valid() && Aligned() && this.kind == kind
      ensures lines[0] == LineState(pos, false, basePen, HoverPen)
    {
      this.kind := kind;
      hoverPen := HoverPen;
      basePen := match kind case Plain => Black case PLine => Red case SLine => Green;
      lines := seq(3, _ => LineState(pos, false, Black, HoverPen));
      new;
      if kind != Plain {
        SetPen(basePen);
      }
    }

    function Pos(): real
      reads this
      requires Valid()
    {
      lines[0].pos
    }

    function Movable(): bool
      reads this
      requires Valid()
    {
      lines[0].movable
    }

    function CurrentPen(): Pen
      reads this
      requires Valid()
    {
      lines[0].pen
    }

    method SetMovables(state: bool)
      requires Valid()
      modifies this
      ensures Valid() && Movable() == state
      ensures forall k :: 0 <= k < 3 ==> lines[k] == old(lines[k]).(movable := state)
    {
      var i := 0;
      while i < |lines|
        invariant 0 <= i <= 3 && |lines| == 3
        invariant forall k :: 0 <= k < i ==> lines[k] == old(lines[k]).(movable := state)
        invariant forall k :: i <= k < 3 ==> lines[k] == old(lines[k])
      {
        lines := lines[i := lines[i].(movable := state)];
        i := i + 1;
      }
    }

    method SetPos(x: real)
      requires Valid()
      modifies this
      ensures Valid() && Aligned() && Pos() == x
      ensures forall k :: 0 <= k < 3 ==> lines[k] == old(lines[k]).(pos := x)
    {
      var i := 0;
      while i < |lines|
        invariant 0 <= i <= 3 && |lines| == 3
        invariant forall k :: 0 <= k < i ==> lines[k] == old(lines[k]).(pos := x)
        invariant forall k :: i <= k < 3 ==> lines[k] == old(lines[k])
      {
        lines := lines[i := lines[i].(pos := x)];
        i := i + 1;
      }
    }

    method SetPen(pen: Pen)
      requires Valid()
      modifies this
      ensures Valid() && CurrentPen() == pen
      ensures forall k :: 0 <= k < 3 ==> lines[k] == old(lines[k]).(pen := pen)
    {
      var i := 0;
      while i < |lines|
        invariant 0 <= i <= 3 && |lines| == 3
        invariant forall k :: 0 <= k < i ==> lines[k] == old(lines[k]).(pen := pen)
        invariant forall k :: i <= k < 3 ==> lines[k] == old(lines[k])
      {
        lines := lines[i := lines[i].(pen := pen)];
        i := i + 1;
      }
    }

    /**
     * pyqtgraph's drag of one movable InfiniteLine of the marker: line `k`
     * alone moves to `x`; the marker's own methods are not involved.
     */
    method DragLine(k: nat, x: real)
      requires Valid() && k < 3 && Movable()
      modifies this
      ensures Valid() && lines == old(lines)[k := old(lines[k]).(pos := x)]
    {
      lines := lines[k := lines[k].(pos := x)];
    }
  }
}
