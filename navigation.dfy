/**
 * The navigation state each browsing screen keeps between interactions:
 * which state and unit, or which segment, the user has chosen so far.
 * Each button's callback is a method; the screen drawn next is a function
 * of the state.
 */
module Navigation {
  import opened Wrappers

  /** What the location browser draws. */
  datatype LocationScreen = PickState | PickUnit(state: string) | UnitDetail(state: string, unit: string)

  /** The location browser's selection. */
  class LocationNav {
    var state: Option<string>
    var unit: Option<string>

    /** A session starts with nothing chosen. */
    constructor ()
      ensures state == None && unit == None
    {
      state, unit := None, None;
    }

    /**
     * The screen follows the first missing choice: no state means the
     * state buttons, a state but no unit means that state's unit buttons,
     * and both mean the unit's segments and customers.
     */
    function Screen(): (v: LocationScreen)
      reads this
      ensures v == PickState <==> state.None?
      ensures v.PickUnit? <==> state.Some? && unit.None?
      ensures !v.PickState? ==> state == Some(v.state)
      ensures v.UnitDetail? ==> unit == Some(v.unit)
    {
      match (state, unit)
      case (None, _) => PickState
      case (Some(s), None) => PickUnit(s)
      case (Some(s), Some(u)) => UnitDetail(s, u)
    }

    /** A state button: the state is chosen and the unit buttons of that state follow. */
    method SelectState(s: string)
      modifies this
      ensures state == Some(s) && unit == old(unit)
      ensures old(Screen()) == PickState && old(unit) == None ==> Screen() == PickUnit(s)
    {
      state := Some(s);
    }

    /** A unit button: the unit is chosen and the unit's details follow. */
    method SelectUnit(u: string)
      modifies this
      ensures state == old(state) && unit == Some(u)
      ensures old(Screen()).PickUnit? ==> Screen() == UnitDetail(old(Screen()).state, u)
    {
      unit := Some(u);
    }

    /** "Back to State Selection": both choices are forgotten. */
    method BackToStates()
      modifies this
      ensures state == None && unit == None
      ensures Screen() == PickState
    {
      state, unit := None, None;
    }

    /** "Back to Unit Selection": the unit is forgotten and the state kept. */
    method BackToUnits()
      modifies this
      ensures state == old(state) && unit == None
      ensures old(Screen()).UnitDetail? ==> Screen() == PickUnit(old(Screen()).state)
    {
      unit := None;
    }
  }

  /** What the segment browser draws. */
  datatype SegmentScreen = PickSegment | SegmentDetail(segment: string)

  /** The segment browser's selection. */
  class SegmentNav {
    var segment: Option<string>

    constructor ()
      ensures segment == None
    {
      segment := None;
    }

    function Screen(): (v: SegmentScreen)
      reads this
      ensures v == PickSegment <==> segment.None?
      ensures v.SegmentDetail? ==> segment == Some(v.segment)
    {
      match segment
      case None => PickSegment
      case Some(g) => SegmentDetail(g)
    }

    /** A segment button: the segment's customers follow. */
    method SelectSegment(g: string)
      modifies this
      ensures segment == Some(g) && Screen() == SegmentDetail(g)
    {
      segment := Some(g);
    }

    /** "Back to Segment Selection". */
    method BackToSegments()
      modifies this
      ensures segment == None && Screen() == PickSegment
    {
      segment := None;
    }
  }
}
