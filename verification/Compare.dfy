/** The compare swipe of web/src/compare-model.ts: what each side shows, and which side a
    trace belongs to. */
module Compare {
  import opened Wrappers

  datatype Mode = Date | Layer

  /** The right side's instant (`Date`) or layer (`Layer`). */
  datatype Spec = Spec(mode: Mode, value: string)

  /** `requested` is the `datetime` a request carries; None is "latest". */
  datatype Frame = Frame(layer: string, requested: Option<string>)

  datatype Sides = Sides(mode: Mode, left: Frame, right: Frame)

  datatype Side = Left | Right

  function ResolveCompare(active: string, time: Option<string>, compared: Option<string>): Option<Spec> {
    var layer := if compared == Some("") then None else compared;
    if time.Some? && layer.Some? then None
    else if time.Some? then Some(Spec(Date, time.value))
    else if layer.Some? && layer.value != active then Some(Spec(Layer, layer.value))
    else None
  }

  function CompareSides(spec: Spec, active: string, datetime: Option<string>): Sides {
    var left := Frame(active, datetime);
    if spec.mode == Date then Sides(Date, left, Frame(active, Some(spec.value)))
    else Sides(Layer, left, Frame(spec.value, datetime))
  }

  function TraceSide(sides: Sides, layer: string, requested: Option<string>): Option<Side> {
    if sides.mode == Layer then
      if layer == sides.right.layer then Some(Right)
      else if layer == sides.left.layer then Some(Left)
      else None
    else if layer != sides.left.layer then None
    else if requested == sides.right.requested then Some(Right)
    else if requested == sides.left.requested then Some(Left)
    else None
  }

  /** A comparison resolves exactly when one thing alone is asked for: an instant, or a layer
      other than the active one; an empty layer is none. */
  lemma ResolvesWhen(active: string, time: Option<string>, compared: Option<string>)
    ensures var spec := ResolveCompare(active, time, compared);
            var layer := compared.Some? && compared.value != "";
            (spec.Some? <==> (time.Some? && !layer) || (time.None? && layer && compared.value != active)) &&
            (spec.Some? ==> spec.value == if time.Some? then Spec(Date, time.value) else Spec(Layer, compared.value))
  {
  }

  /** The left side is the map's own layer and frame; the right differs from it in what is
      compared and in nothing else. */
  lemma SidesShown(spec: Spec, active: string, datetime: Option<string>)
    ensures var sides := CompareSides(spec, active, datetime);
            sides.mode == spec.mode && sides.left.layer == active && sides.left.requested == datetime &&
            (spec.mode == Date ==> sides.right.layer == active && sides.right.requested == Some(spec.value)) &&
            (spec.mode == Layer ==> sides.right.layer == spec.value && sides.right.requested == datetime)
  {
  }

  /** Each side's own requests are told apart exactly when the sides differ: what the right
      side asks for is always the right side's, and what the left side asks for is the left
      side's unless both ask for the same. */
  lemma SidesToldApart(active: string, time: Option<string>, compared: Option<string>, datetime: Option<string>)
    requires ResolveCompare(active, time, compared).Some?
    ensures var spec := ResolveCompare(active, time, compared).value;
            var sides := CompareSides(spec, active, datetime);
            TraceSide(sides, sides.right.layer, sides.right.requested) == Some(Right) &&
            (TraceSide(sides, sides.left.layer, sides.left.requested) == Some(Left) <==> sides.left != sides.right) &&
            (sides.left == sides.right <==> time.Some? && datetime == time)
  {
  }

  /** A trace belongs to the right side exactly when it is what that side asks for: in date
      mode of the one layer at the side's instant, in layer mode of the side's layer at any;
      to the left side exactly when it is what the left asks for and not what the right does;
      and otherwise to neither. */
  lemma SideOfTrace(spec: Spec, active: string, datetime: Option<string>, layer: string, requested: Option<string>)
    ensures var side := TraceSide(CompareSides(spec, active, datetime), layer, requested);
            var right := if spec.mode == Date then layer == active && requested == Some(spec.value)
                         else layer == spec.value;
            var left := layer == active && (spec.mode == Date ==> requested == datetime);
            side == if right then Some(Right) else if left then Some(Left) else None
  {
  }
}
