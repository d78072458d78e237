/** The selection view itself: a container that tracks its selectable subviews
    and turns tap and pan gestures into changes of their `isSelected` flags. */
module Selection {
  import opened Geometry
  import opened Tracking
  import opened Gestures

  datatype Option<T> = None | Some(value: T)

  /** A subview that conforms to `Selectable`: its selection flag and its frame
      in the container's coordinates. */
  class Element {
    var selected: bool
    var frame: Rect

    constructor (frame: Rect, selected: bool)
      ensures this.frame == frame && this.selected == selected
    {
      this.frame := frame;
      this.selected := selected;
    }
  }

  /** A subview handed to the add and remove hooks: either a `Selectable` one
      or any other view. */
  datatype Subview = SelectableView(element: Element) | OtherView

  /** The selection flags of a sequence of subviews, in order. */
  function FlagsOf(s: seq<Element>): (r: seq<bool>)
    reads s
  {
    seq(|s|, i requires 0 <= i < |s| reads s => s[i].selected)
  }

  /** The frames of a sequence of subviews, in order. */
  function FramesOf(s: seq<Element>): (r: seq<Rect>)
    reads s
  {
    seq(|s|, i requires 0 <= i < |s| reads s => s[i].frame)
  }

  /** The subviews whose flag is on, in their original order. */
  function SelectedIn(s: seq<Element>): (r: seq<Element>)
    reads s
    ensures forall e :: e in r ==> e in s && e.selected
    ensures forall e :: e in s && e.selected ==> e in r
    ensures NoDuplicates(s) ==> NoDuplicates(r)
    ensures r == [] <==> forall i :: 0 <= i < |s| ==> !s[i].selected
  {
    if s == [] then []
    else
      var rest := SelectedIn(s[1..]);
      assert NoDuplicates(s) ==> NoDuplicates(s[1..]) && s[0] !in rest;
      if s[0].selected then [s[0]] + rest else rest
  }

  class SelectionView {
    /** `selectableSubviews`, in iteration order. */
    var elements: seq<Element>
    /** `allowsMultipleSelection` (Swift 2) / `isMultiselectable` (Swift 3). */
    var multiselect: bool
    /** Whether the pan gesture recognizer is enabled. */
    var panEnabled: bool
    /** The frame of the marquee view (`multipleSelectionView` /
        `multiselectionView`). */
    var marquee: Rect

    /** The tracked subviews form a set. */
    ghost predicate Valid()
      reads this
    {
      NoDuplicates(elements)
    }

    function Flags(): (r: seq<bool>)
      reads this, elements
    {
      FlagsOf(elements)
    }

    function Frames(): (r: seq<Rect>)
      reads this, elements
    {
      FramesOf(elements)
    }

    /** `selectedSubviews`: the tracked subviews whose flag is on. */
    function SelectedSubviews(): (r: seq<Element>)
      reads this, elements
      ensures forall e :: e in r ==> e in elements && e.selected
      ensures forall e :: e in elements && e.selected ==> e in r
      ensures Valid() ==> NoDuplicates(r)
      ensures r == [] <==> forall i :: 0 <= i < |elements| ==> !elements[i].selected
    {
      SelectedIn(elements)
    }

    /** `init(frame:)` followed by `setup()` in the Swift 2 version, where the
        multiple-selection flag starts on. */
    constructor InitSwift2()
      ensures Valid() && elements == []
      ensures multiselect && panEnabled && marquee == ZeroRect
    {
      elements := [];
      multiselect := true;
      panEnabled := true;
      marquee := ZeroRect;
      new;
      SetMultiselect(true);
    }

    /** `init(frame:)` followed by `setup()` in the Swift 3 version, where the
        multiple-selection flag starts off. */
    constructor InitSwift3()
      ensures Valid() && elements == []
      ensures !multiselect && !panEnabled && marquee == ZeroRect
    {
      elements := [];
      multiselect := false;
      panEnabled := true;
      marquee := ZeroRect;
      new;
      SetMultiselect(false);
    }

    /** Assigning the multiple-selection flag, with its `didSet` observer:
        turning it on enables the pan gesture and keeps every flag; turning it
        off disables the pan gesture, zeroes the marquee and deselects every
        tracked subview. */
    method SetMultiselect(value: bool)
      requires Valid()
      modifies this`multiselect, this`panEnabled, this`marquee, elements`selected
      ensures Valid() && elements == old(elements) && Frames() == old(Frames())
      ensures multiselect == value && panEnabled == value
      ensures value ==> marquee == old(marquee) && Flags() == old(Flags())
      ensures !value ==> marquee == ZeroRect && SelectedSubviews() == []
      ensures !value ==> forall i :: 0 <= i < |elements| ==> !elements[i].selected
    {
      multiselect := value;
      if value {
        panEnabled := true;
      } else {
        panEnabled := false;
        marquee := ZeroRect;
        DeselectAll();
      }
    }

    /** `toggleSelectedState(of:to:)`: sets the flag to the given value, or
        inverts it when no value is given. Nothing else changes. */
    method ToggleSelectedState(e: Element, to: Option<bool>)
      modifies e`selected
      ensures e.selected == if to.Some? then to.value else !old(e.selected)
    {
      e.selected := if to.Some? then to.value else !e.selected;
    }

    /** `deselectAll()`: turns off the flag of every subview in a snapshot of
        `selectedSubviews`; only those subviews are written. */
    method DeselectAll()
      requires Valid()
      modifies (set e | e in SelectedSubviews())`selected
      ensures Valid() && Frames() == old(Frames())
      ensures forall i :: 0 <= i < |elements| ==> !elements[i].selected
      ensures SelectedSubviews() == []
    {
      var selected := SelectedSubviews();
      for n := 0 to |selected|
        invariant forall i :: 0 <= i < |elements| ==>
          elements[i].selected == (old(elements[i].selected) && elements[i] !in selected[..n])
      {
        ToggleSelectedState(selected[n], Some(false));
      }
      assert selected[..|selected|] == selected;
    }

    /** `selectOne`: for every tracked subview, in order, whose frame contains
        the tapped point, first deselect everything when multiple selection is
        off, then invert its flag. */
    method SelectOne(point: Point)
      requires Valid()
      modifies elements`selected
      ensures Valid() && Frames() == old(Frames())
      ensures Flags() == Tap(old(Flags()), Hits(Frames(), point), multiselect)
      ensures multiselect ==> forall i :: 0 <= i < |elements| ==>
        elements[i].selected == (old(elements[i].selected) != Contains(elements[i].frame, point))
      ensures var hits := Hits(Frames(), point);
        !multiselect && !HitBefore(hits, |hits|) ==> Flags() == old(Flags())
      ensures var hits := Hits(Frames(), point);
        !multiselect && HitBefore(hits, |hits|) ==> forall i :: 0 <= i < |elements| ==>
          elements[i].selected == (i == LastHitBefore(hits, |hits|))
    {
      ghost var flags := Flags();
      ghost var hits := Hits(Frames(), point);
      for n := 0 to |elements|
        invariant Frames() == old(Frames())
        invariant Flags() == TapPrefix(flags, hits, multiselect, n)
      {
        TapVisit(n, point);
      }
      if multiselect {
        forall i | 0 <= i < |elements|
          ensures elements[i].selected == (old(elements[i].selected) != Contains(elements[i].frame, point))
        {
          assert Flags()[i] == elements[i].selected && flags[i] == old(elements[i].selected);
          assert Flags()[i] == Tap(flags, hits, true)[i];
          assert Frames()[i] == elements[i].frame && hits[i] == Contains(Frames()[i], point);
        }
      } else if HitBefore(hits, |hits|) {
        forall i | 0 <= i < |elements|
          ensures elements[i].selected == (i == LastHitBefore(hits, |hits|))
        {
          assert Flags()[i] == elements[i].selected && Flags()[i] == Tap(flags, hits, false)[i];
        }
      }
    }

    /** One pass of `selectOne`'s loop body, over the n-th tracked subview:
        if its frame contains the point, deselect everything when multiple
        selection is off, then invert its flag. */
    method TapVisit(n: nat, point: Point)
      requires Valid() && n < |elements|
      modifies elements`selected
      ensures Valid() && Frames() == old(Frames())
      ensures Flags() == TapStep(old(Flags()), Hits(Frames(), point), multiselect, n)
    {
      if Contains(elements[n].frame, point) {
        if !multiselect {
          DeselectAll();
          assert Flags() == Cleared(|elements|);
        }
        ghost var cleared := Flags();
        ToggleSelectedState(elements[n], None);
        forall i | 0 <= i < |elements|
          ensures Flags()[i] == cleared[n := !cleared[n]][i]
        {
          if i != n { assert elements[i] != elements[n]; }
        }
        assert Flags() == cleared[n := !cleared[n]];
      }
      assert Frames() == old(Frames());
    }

    /** `selectMultiple`: `Began` changes nothing here; `Changed` sets the
        marquee from the pan's location and translation and sets every flag to
        whether its frame intersects the marquee; every other state zeroes the
        marquee. */
    method SelectMultiple(state: PanState, location: Point, translation: Point)
      requires Valid()
      modifies this`marquee, elements`selected
      ensures Valid() && Frames() == old(Frames())
      ensures (Flags(), marquee) ==
        Pan(old(Flags()), Frames(), old(marquee), state, location, translation)
      ensures state == Changed ==> marquee == PanRect(location, translation)
      ensures state == Changed ==> forall i :: 0 <= i < |elements| ==>
        elements[i].selected == Intersects(elements[i].frame, marquee)
      ensures state != Changed ==> Flags() == old(Flags())
      ensures state != Changed && state != Began ==> marquee == ZeroRect
    {
      match state
      case Began =>
      case Changed =>
        var r := PanRect(location, translation);
        marquee := r;
        for n := 0 to |elements|
          invariant marquee == r
          invariant forall i :: 0 <= i < n ==>
            elements[i].selected == Intersects(elements[i].frame, r)
        {
          if Intersects(elements[n].frame, r) {
            ToggleSelectedState(elements[n], Some(true));
          } else {
            ToggleSelectedState(elements[n], Some(false));
          }
        }
        assert Frames() == old(Frames());
        assert Flags() == PanFlags(Frames(), r);
      case _ =>
        marquee := ZeroRect;
    }

    /** `didAddSubview`: a `Selectable` subview joins the tracked set (once);
        any other view is ignored. No flag changes. */
    method DidAddSubview(v: Subview)
      requires Valid()
      modifies this`elements
      ensures Valid()
      ensures elements == if v.SelectableView? then Insert(old(elements), v.element) else old(elements)
      ensures forall e :: e in elements ==> e.selected == old(e.selected)
    {
      if v.SelectableView? {
        elements := Insert(elements, v.element);
      }
    }

    /** `willRemoveSubview`: a `Selectable` subview leaves the tracked set; any
        other view is ignored. No flag changes. */
    method WillRemoveSubview(v: Subview)
      requires Valid()
      modifies this`elements
      ensures Valid()
      ensures elements == if v.SelectableView? then Remove(old(elements), v.element) else old(elements)
      ensures forall e :: e in old(elements) ==> e.selected == old(e.selected)
    {
      if v.SelectableView? {
        elements := Remove(elements, v.element);
      }
    }

    /** `addSelectableSubview`: adding the subview runs the add hook. */
    method AddSelectableSubview(e: Element)
      requires Valid()
      modifies this`elements
      ensures Valid() && elements == Insert(old(elements), e)
    {
      DidAddSubview(SelectableView(e));
    }

    /** `removeSelectableSubview`: removing the subview runs the remove hook. */
    method RemoveSelectableSubview(e: Element)
      requires Valid()
      modifies this`elements
      ensures Valid() && elements == Remove(old(elements), e)
    {
      WillRemoveSubview(SelectableView(e));
    }
  }
}
