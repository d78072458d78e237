/** Client code: concrete gesture sequences whose outcome follows from the
    contracts of the selection view alone. */
module Scenarios {
  import opened Geometry
  import opened Gestures
  import opened Selection

  /** A view of either version with two unselected tracked subviews A and B. */
  method TwoSubviews(swift2: bool, frameA: Rect, frameB: Rect)
    returns (view: SelectionView, a: Element, b: Element)
    ensures fresh(view) && fresh(a) && fresh(b)
    ensures view.Valid() && view.elements == [a, b]
    ensures view.multiselect == swift2 && view.marquee == ZeroRect
    ensures a.frame == frameA && b.frame == frameB && !a.selected && !b.selected
  {
    if swift2 {
      view := new SelectionView.InitSwift2();
    } else {
      view := new SelectionView.InitSwift3();
    }
    a := new Element(frameA, false);
    b := new Element(frameB, false);
    view.AddSelectableSubview(a);
    view.AddSelectableSubview(b);
  }

  /** Single selection: tapping A selects A, then tapping B moves the
      selection to B. */
  method SingleSelectionMovesSelection() {
    var view, a, b := TwoSubviews(false, Rect(Point(0, 0), Size(10, 10)), Rect(Point(20, 20), Size(10, 10)));
    view.SelectOne(Point(5, 5));
    ghost var hits := Hits(view.Frames(), Point(5, 5));
    assert hits == [true, false] && hits[0] && LastHitBefore(hits, 2) == 0;
    assert a.selected && !b.selected;

    view.SelectOne(Point(25, 25));
    hits := Hits(view.Frames(), Point(25, 25));
    assert hits == [false, true] && hits[1] && LastHitBefore(hits, 2) == 1;
    assert !a.selected && b.selected;
  }

  /** Single selection: tapping the selected subview B again keeps it selected. */
  method SingleSelectionRetap() {
    var view, a, b := TwoSubviews(false, Rect(Point(0, 0), Size(10, 10)), Rect(Point(20, 20), Size(10, 10)));
    b.selected := true;
    view.SelectOne(Point(25, 25));
    ghost var hits := Hits(view.Frames(), Point(25, 25));
    assert hits == [false, true] && hits[1] && LastHitBefore(hits, 2) == 1;
    assert !a.selected && b.selected;
  }

  /** Single selection: a tap between the subviews changes nothing. */
  method SingleSelectionMiss() {
    var view, a, b := TwoSubviews(false, Rect(Point(0, 0), Size(10, 10)), Rect(Point(20, 20), Size(10, 10)));
    b.selected := true;
    view.SelectOne(Point(15, 15));
    ghost var hits := Hits(view.Frames(), Point(15, 15));
    assert hits == [false, false] && !HitBefore(hits, 2);
    assert view.Flags() == [false, true] && view.Flags()[0] == a.selected && view.Flags()[1] == b.selected;
    assert !a.selected && b.selected;
  }

  /** Overlapping subviews with single selection: only B, the later one in
      iteration order, ends up selected. */
  method OverlapSingleSelection() {
    var view, a, b := TwoSubviews(false, Rect(Point(0, 0), Size(10, 10)), Rect(Point(5, 5), Size(10, 10)));
    view.SelectOne(Point(7, 7));
    assert view.elements[0] == a && view.elements[1] == b;
    ghost var hits := Hits(view.Frames(), Point(7, 7));
    assert hits[0] && hits[1] && LastHitBefore(hits, 2) == 1;
    assert !a.selected && b.selected;
  }

  /** Overlapping subviews with multiple selection: every hit flag is inverted. */
  method OverlapMultipleSelection() {
    var view, a, b := TwoSubviews(true, Rect(Point(0, 0), Size(10, 10)), Rect(Point(5, 5), Size(10, 10)));
    b.selected := true;
    view.SelectOne(Point(7, 7));
    assert view.elements[0] == a && view.elements[1] == b;
    assert a.selected && !b.selected;
  }

  /** A pan update selects exactly the subviews its marquee intersects, and
      the same update repeated changes nothing. */
  method PanSelection() {
    var view, a, b := TwoSubviews(true, Rect(Point(0, 0), Size(10, 10)), Rect(Point(20, 20), Size(10, 10)));
    view.SelectMultiple(Changed, Point(25, 25), Point(20, 20));
    assert view.marquee == Rect(Point(5, 5), Size(20, 20));
    assert view.elements[0] == a && view.elements[1] == b;
    assert a.selected && b.selected;

    view.SelectMultiple(Changed, Point(8, 8), Point(3, 3));
    assert view.elements[0] == a && view.elements[1] == b;
    assert a.selected && !b.selected;
    view.SelectMultiple(Changed, Point(8, 8), Point(3, 3));
    assert view.elements[0] == a && view.elements[1] == b;
    assert a.selected && !b.selected;
  }

  /** The end of a pan zeroes the marquee and keeps the flags; turning
      multiple selection off then clears them. */
  method PanEndThenSingleSelection() {
    var view, a, b := TwoSubviews(true, Rect(Point(0, 0), Size(10, 10)), Rect(Point(20, 20), Size(10, 10)));
    a.selected := true;
    view.SelectMultiple(Ended, Point(8, 8), Point(3, 3));
    assert view.marquee == ZeroRect;
    assert view.Flags() == [true, false] && view.Flags()[0] == a.selected && view.Flags()[1] == b.selected;
    assert a.selected && !b.selected;

    view.SetMultiselect(false);
    assert !view.panEnabled && !a.selected && !b.selected;
    assert view.SelectedSubviews() == [];
  }

  /** Removing a selected subview stops tracking it without touching its flag;
      a view that is not selectable is never tracked. */
  method RemoveKeepsFlag() {
    var view := new SelectionView.InitSwift2();
    var a := new Element(Rect(Point(0, 0), Size(10, 10)), true);
    view.AddSelectableSubview(a);
    assert view.SelectedSubviews() == [a];
    view.RemoveSelectableSubview(a);
    assert view.elements == [];
    assert a.selected && view.SelectedSubviews() == [];
    view.DidAddSubview(OtherView);
    assert view.elements == [];
  }
}
