/**
 The visual itself: it keeps the current view model and the index of the
 image on display across host updates and arrow clicks, and after each change
 paints the image at that index and hides the arrow that would lead nowhere.
 */
module Widget {
  import opened ViewModel
  import opened Transformation
  import opened Cursor

  /** What one repaint puts on screen: the image and the visibility of the arrows. */
  datatype Frame = Frame(imageUrl: Option<string>, leftArrowHidden: bool, rightArrowHidden: bool)

  /** How an update ends: the repaint it performs, or the TypeError raised when
      the repaint reads the item at index -1 of an empty gallery. */
  datatype UpdateOutcome = Painted(frame: Frame) | ThrewTypeError

  class Visual<Id> {
    var model: seq<DataPoint<Id>>
    var index: int

    /** The index is consistent with the gallery it points into. */
    ghost predicate Valid()
      reads this
    {
      Consistent(index, |model|)
    }

    /** The frame f shows the item at the index, with each arrow hidden at its end. */
    ghost predicate Shows(f: Frame)
      reads this
    {
      && 0 <= index < |model|
      && f.imageUrl == model[index].imageUrl
      && (f.leftArrowHidden <==> LeftHidden(index))
      && (f.rightArrowHidden <==> RightHidden(index, |model|))
    }

    /** The index starts at 0; there is no gallery until the first update. */
    constructor ()
      ensures Valid()
      ensures model == [] && index == 0
    {
      model := [];
      index := 0;
    }

    /** updateImage: paint the item at the index and decide the arrows' visibility.
        Reading the item needs the index to be within the gallery. */
    method UpdateImage() returns (f: Frame)
      requires 0 <= index < |model|
      ensures f.imageUrl == model[index].imageUrl
      ensures f.leftArrowHidden <==> index == 0
      ensures f.rightArrowHidden <==> index == |model| - 1
    {
      var imgUrl := model[index].imageUrl;
      f := Frame(imgUrl, index == 0, index == |model| - 1);
    }

    /** update: rebuild the gallery from the host's data, pull the index back
        into range, and repaint, which fails when the gallery is empty. */
    method Update(o: UpdateOptions<Id>) returns (outcome: UpdateOutcome)
      requires WellFormed(o)
      modifies this
      ensures Valid()
      ensures model == Transform(o).dataPoints
      ensures index == Clamp(old(index), |model|)
      ensures outcome == ThrewTypeError <==> model == []
      ensures outcome.Painted? ==> Shows(outcome.frame)
    {
      var vm := VisualTransform(o);
      model := vm.dataPoints;
      if index < 0 {
        index := 0;
      }
      if index >= |model| {
        index := |model| - 1;
      }
      if |model| == 0 {
        outcome := ThrewTypeError;
      } else {
        var f := UpdateImage();
        outcome := Painted(f);
      }
    }

    /** The right arrow's click handler: step forward and repaint, unless on the last item. */
    method ClickRight() returns (repaint: Option<Frame>)
      requires Valid()
      modifies this`index
      ensures Valid()
      ensures index == StepRight(old(index), |model|)
      ensures repaint.Some? <==> old(index) < |model| - 1
      ensures repaint.Some? ==> Shows(repaint.value)
    {
      if index < |model| - 1 {
        index := index + 1;
        var f := UpdateImage();
        repaint := Some(f);
      } else {
        repaint := None;
      }
    }

    /** The left arrow's click handler: step back and repaint, unless on the first item. */
    method ClickLeft() returns (repaint: Option<Frame>)
      requires Valid()
      modifies this`index
      ensures Valid()
      ensures index == StepLeft(old(index))
      ensures repaint.Some? <==> old(index) > 0
      ensures repaint.Some? ==> Shows(repaint.value)
    {
      if index > 0 {
        index := index - 1;
        var f := UpdateImage();
        repaint := Some(f);
      } else {
        repaint := None;
      }
    }
  }

  /** A three-image gallery browsed to its end, then shrunk to one row by the host. */
  method ShrinkingGallery()
  {
    var bound := UpdateOptions(true, [[Some("a.png")], [Some("b.png")], [Some("c.png")]], Some(0), [10, 11, 12]);
    TransformFollowsRows(bound);
    var v := new Visual<int>();
    var painted := v.Update(bound);
    assert v.index == 0 && |v.model| == 3;
    assert painted.Painted? && painted.frame == Frame(Some("a.png"), true, false);
    var moved := v.ClickRight();
    moved := v.ClickRight();
    assert v.index == 2;
    moved := v.ClickRight();
    assert moved == None && v.index == 2;

    var shrunk := UpdateOptions(true, [[Some("a.png")]], None, [20]);
    TransformFollowsRows(shrunk);
    painted := v.Update(shrunk);
    assert v.index == 0;
    assert painted.Painted? && painted.frame == Frame(None, true, true);

    var empty: UpdateOptions<int> := UpdateOptions(false, [], None, []);
    painted := v.Update(empty);
    assert painted == ThrewTypeError && v.index == -1;
    painted := v.Update(bound);
    assert v.index == 0;
  }
}
