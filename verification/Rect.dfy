/** rectangle.c: splitting a rectangle at the border of another. */
module Rect {
  datatype Segment = Segment(offset: int, size: nat)

  datatype Rectangle = Rectangle(x: Segment, y: Segment)

  /** One of the nine regions; region (x, y) stands at y * 3 + x. */
  datatype Region = Region(x: Segment, y: Segment, there: bool)

  predicate On(s: Segment, p: int) { s.offset <= p < s.offset + s.size }

  predicate In(r: Rectangle, px: int, py: int) { On(r.x, px) && On(r.y, py) }

  predicate Covers(g: Region, px: int, py: int) { g.there && On(g.x, px) && On(g.y, py) }

  ghost predicate Meet(r0: Rectangle, r1: Rectangle) {
    exists px, py :: In(r0, px, py) && In(r1, px, py)
  }

  predicate NotEmpty(r: Rectangle) { r.x.size > 0 && r.y.size > 0 }

  /** The middle region is the common part; the others lie in r0 and outside r1; together they
      are r0. Strips may overlap at the corners. */
  ghost predicate Split(r0: Rectangle, r1: Rectangle, rs: seq<Region>) {
    && |rs| == 9
    && (forall px, py :: Covers(rs[4], px, py) <==> In(r0, px, py) && In(r1, px, py))
    && (forall k, px, py :: 0 <= k < 9 && k != 4 && Covers(rs[k], px, py) ==> In(r0, px, py) && !In(r1, px, py))
    && (forall px, py :: In(r0, px, py) ==> exists k :: 0 <= k < 9 && Covers(rs[k], px, py))
  }

  function End(s: Segment): int { s.offset + s.size }

  const ZERO: Segment := Segment(0, 0)

  function Low(s0: Segment, s1: Segment): Segment {
    if s0.offset < s1.offset then Segment(s0.offset, s1.offset - s0.offset) else ZERO
  }

  function High(s0: Segment, s1: Segment): Segment {
    if End(s0) > End(s1) then Segment(End(s1), End(s0) - End(s1)) else ZERO
  }

  predicate Meets(s0: Segment, s1: Segment) { s0.offset < End(s1) && s1.offset < End(s0) }

  function Common(s0: Segment, s1: Segment): Segment
    requires Meets(s0, s1)
  {
    var from := if s0.offset < s1.offset then s1.offset else s0.offset;
    var to_ := if End(s0) > End(s1) then End(s1) else End(s0);
    Segment(from, to_ - from)
  }

  /** The table when the left and right sides are done. */
  function Columns(r0: Rectangle, r1: Rectangle): seq<Region>
    requires Meets(r0.x, r1.x)
  {
    var (left, right) := (r0.x.offset < r1.x.offset, End(r0.x) > End(r1.x));
    var (l, h) := (Low(r0.x, r1.x), High(r0.x, r1.x));
    [Region(l, ZERO, left), Region(r0.x, ZERO, false), Region(h, ZERO, right),
     Region(l, r0.y, left), Region(Common(r0.x, r1.x), r0.y, true), Region(h, r0.y, right),
     Region(l, ZERO, left), Region(r0.x, ZERO, false), Region(h, ZERO, right)]
  }

  /** The nine regions. */
  function Nine(r0: Rectangle, r1: Rectangle): seq<Region>
    requires Meets(r0.x, r1.x) && Meets(r0.y, r1.y)
  {
    var (left, right) := (r0.x.offset < r1.x.offset, End(r0.x) > End(r1.x));
    var (top, bottom) := (r0.y.offset < r1.y.offset, End(r0.y) > End(r1.y));
    var (l, h) := (Low(r0.x, r1.x), High(r0.x, r1.x));
    var (t, b) := (Low(r0.y, r1.y), High(r0.y, r1.y));
    [Region(l, t, left && top), Region(r0.x, t, top), Region(h, t, right && top),
     Region(l, r0.y, left), Region(Common(r0.x, r1.x), Common(r0.y, r1.y), true), Region(h, r0.y, right),
     Region(l, b, left && bottom), Region(r0.x, b, bottom), Region(h, b, right && bottom)]
  }

  lemma MeetExact(r0: Rectangle, r1: Rectangle)
    requires NotEmpty(r0) && NotEmpty(r1)
    ensures Meet(r0, r1) <==> Meets(r0.x, r1.x) && Meets(r0.y, r1.y)
  {
    if Meets(r0.x, r1.x) && Meets(r0.y, r1.y) {
      var px, py := Common(r0.x, r1.x).offset, Common(r0.y, r1.y).offset;
      assert In(r0, px, py) && In(r1, px, py);
    }
  }

  lemma SegmentSplit(s0: Segment, s1: Segment, p: int)
    requires Meets(s0, s1)
    ensures On(s0, p) <==> On(Low(s0, s1), p) || On(Common(s0, s1), p) || On(High(s0, s1), p)
    ensures On(Common(s0, s1), p) <==> On(s0, p) && On(s1, p)
    ensures On(Low(s0, s1), p) ==> s0.offset < s1.offset && !On(s1, p)
    ensures On(High(s0, s1), p) ==> End(s0) > End(s1) && !On(s1, p)
  {}

  lemma NineSplit(r0: Rectangle, r1: Rectangle)
    requires NotEmpty(r0) && NotEmpty(r1) && Meets(r0.x, r1.x) && Meets(r0.y, r1.y)
    ensures Split(r0, r1, Nine(r0, r1))
  {
    var rs := Nine(r0, r1);
    forall px, py ensures Covers(rs[4], px, py) <==> In(r0, px, py) && In(r1, px, py) {
      SegmentSplit(r0.x, r1.x, px);
      SegmentSplit(r0.y, r1.y, py);
    }
    forall k, px, py | 0 <= k < 9 && k != 4 && Covers(rs[k], px, py)
      ensures In(r0, px, py) && !In(r1, px, py)
    {
      hide Low, High, Common, Meets;
      SegmentSplit(r0.x, r1.x, px);
      SegmentSplit(r0.y, r1.y, py);
    }
    forall px, py | In(r0, px, py) ensures exists k :: 0 <= k < 9 && Covers(rs[k], px, py) {
      SegmentSplit(r0.x, r1.x, px);
      SegmentSplit(r0.y, r1.y, py);
      assert Covers(rs[1], px, py) || Covers(rs[3], px, py) || Covers(rs[4], px, py)
        || Covers(rs[5], px, py) || Covers(rs[7], px, py);
    }
  }

  // ----- the code ---------------------------------------------------------------------------

  /** The horizontal extent and the mark of one column. */
  method SetColumn(rs: array<Region>, k: nat, s: Segment)
    requires rs.Length == 9 && k < 3
    modifies rs
    ensures forall i :: 0 <= i < 9 ==>
      rs[i] == if i % 3 == k then Region(s, old(rs[i].y), true) else old(rs[i])
  {
    rs[k], rs[k + 3], rs[k + 6] := rs[k].(x := s), rs[k + 3].(x := s), rs[k + 6].(x := s);
    rs[k], rs[k + 3], rs[k + 6] := rs[k].(there := true), rs[k + 3].(there := true), rs[k + 6].(there := true);
  }

  /** The vertical extent of a row, and the mark of its middle. */
  method SetRow(rs: array<Region>, at: nat, s: Segment)
    requires rs.Length == 9 && (at == 0 || at == 6)
    modifies rs
    ensures forall i :: 0 <= i < 9 ==>
      rs[i] == if at <= i < at + 3 then Region(old(rs[i].x), s, i == at + 1 || old(rs[i].there)) else old(rs[i])
  {
    rs[at], rs[at + 1], rs[at + 2] := rs[at].(y := s), rs[at + 1].(y := s), rs[at + 2].(y := s);
    rs[at + 1] := rs[at + 1].(there := true);
  }

  method ClearRow(rs: array<Region>, at: nat)
    requires rs.Length == 9 && (at == 0 || at == 6)
    modifies rs
    ensures forall i :: 0 <= i < 9 ==>
      rs[i] == if at <= i < at + 3 then old(rs[i]).(there := false) else old(rs[i])
  {
    rs[at], rs[at + 1], rs[at + 2] :=
      rs[at].(there := false), rs[at + 1].(there := false), rs[at + 2].(there := false);
  }

  /** The left and right sides. */
  method SplitColumns(r0: Rectangle, r1: Rectangle, rs: array<Region>)
    requires rs.Length == 9 && Meets(r0.x, r1.x)
    modifies rs
    ensures rs[..] == Columns(r0, r1)
  {
    forall k | 0 <= k < 9 {
      rs[k] := Region(ZERO, ZERO, false);
    }
    rs[4] := Region(r0.x, r0.y, true);
    rs[1], rs[7] := rs[1].(x := r0.x), rs[7].(x := r0.x);
    rs[3], rs[5] := rs[3].(y := r0.y), rs[5].(y := r0.y);
    if r0.x.offset < r1.x.offset {
      var size := r1.x.offset - r0.x.offset;
      SetColumn(rs, 0, Segment(r0.x.offset, size));
      rs[4] := rs[4].(x := Segment(rs[4].x.offset + size, rs[4].x.size - size));
    }
    if End(r0.x) > End(r1.x) {
      var size := End(r0.x) - End(r1.x);
      SetColumn(rs, 2, Segment(End(r1.x), size));
      rs[4] := rs[4].(x := Segment(rs[4].x.offset, rs[4].x.size - size));
    }
  }

  /** The top and the bottom. */
  method SplitRows(r0: Rectangle, r1: Rectangle, rs: array<Region>)
    requires rs.Length == 9 && Meets(r0.x, r1.x) && Meets(r0.y, r1.y) && rs[..] == Columns(r0, r1)
    modifies rs
    ensures rs[..] == Nine(r0, r1)
  {
    assert forall k :: 0 <= k < 9 ==> rs[k] == Columns(r0, r1)[k];
    if r0.y.offset < r1.y.offset {
      var size := r1.y.offset - r0.y.offset;
      SetRow(rs, 0, Segment(r0.y.offset, size));
      rs[4] := rs[4].(y := Segment(rs[4].y.offset + size, rs[4].y.size - size));
    } else {
      ClearRow(rs, 0);
    }
    if End(r0.y) > End(r1.y) {
      var size := End(r0.y) - End(r1.y);
      SetRow(rs, 6, Segment(End(r1.y), size));
      rs[4] := rs[4].(y := Segment(rs[4].y.offset, rs[4].y.size - size));
    } else {
      ClearRow(rs, 6);
    }
  }

  /** get_intersection_regions. */
  method GetIntersectionRegions(r0: Rectangle, r1: Rectangle, rs: array<Region>) returns (r: int)
    requires rs.Length == 9 && NotEmpty(r0) && NotEmpty(r1)
    modifies rs
    ensures r == (if Meet(r0, r1) then 1 else 0)
    ensures r == 0 ==> rs[..] == old(rs[..])
    ensures r == 1 ==> Split(r0, r1, rs[..])
  {
    MeetExact(r0, r1);
    if End(r0.x) <= r1.x.offset || End(r1.x) <= r0.x.offset || End(r0.y) <= r1.y.offset || End(r1.y) <= r0.y.offset {
      return 0;
    }
    SplitColumns(r0, r1, rs);
    SplitRows(r0, r1, rs);
    NineSplit(r0, r1);
    r := 1;
  }
}
