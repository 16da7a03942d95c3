/**
 * The `Event` record of the calendar and the normalisation every field gets on
 * its way into the store (core/calendar.py:42-51, 79-87, 107-116).
 */
module Events {
  import opened Wrappers
  import opened Text
  import opened LocalTime
  import opened Palette

  /** Event ids; the source draws them from `uuid4`, here any id not yet in use will do. */
  type Id = nat

  /** A stored event; `start` and `end` are instants in the local zone. */
  datatype Event = Event(id: Id, title: string, start: Instant, end: Instant, colorKey: string, description: string)

  /** Title given to an event whose title is empty after trimming. */
  const UNTITLED: string := "Bez tytu\U{0142}u"

  /** `title.strip() or "Bez tytułu"`. */
  function NormalizeTitle(title: string): (r: string)
    ensures r != []
    ensures AllWhitespace(title) ==> r == UNTITLED
    ensures !AllWhitespace(title) ==> r == Strip(title)
  {
    StripEmptyIffAllWhitespace(title);
    var t := Strip(title);
    if t == [] then UNTITLED else t
  }

  /** The event `add_event` builds from its arguments under the id it drew. */
  function NewEvent(id: Id, title: string, startDt: DateTime, endDt: DateTime, colorKey: string, description: string): (e: Event)
    ensures e.id == id && e.title != [] && IsColorKey(e.colorKey)
    ensures e.start == LocalInstant(startDt) && e.end == LocalInstant(endDt)
    ensures e.title == NormalizeTitle(title) && e.description == Strip(description)
  {
    Event(id, NormalizeTitle(title), LocalInstant(startDt), LocalInstant(endDt), ValidateColor(colorKey), Strip(description))
  }

  /** The keyword arguments of `update_event`; `None` means "not passed". */
  datatype Patch = Patch(
    title: Option<string>,
    startDt: Option<DateTime>,
    endDt: Option<DateTime>,
    colorKey: Option<string>,
    description: Option<string>)

  const NO_CHANGES: Patch := Patch(None, None, None, None, None)

  /**
   * The event after `update_event` has assigned the passed fields, each
   * normalised as `add_event` would; the others keep their old values.
   */
  function ApplyPatch(e: Event, p: Patch): (r: Event)
    ensures r.id == e.id
    ensures r.title == (if p.title.Some? then NormalizeTitle(p.title.value) else e.title)
    ensures r.start == (if p.startDt.Some? then LocalInstant(p.startDt.value) else e.start)
    ensures r.end == (if p.endDt.Some? then LocalInstant(p.endDt.value) else e.end)
    ensures r.colorKey == (if p.colorKey.Some? then ValidateColor(p.colorKey.value) else e.colorKey)
    ensures r.description == (if p.description.Some? then Strip(p.description.value) else e.description)
  {
    var e1 := if p.title.Some? then e.(title := NormalizeTitle(p.title.value)) else e;
    var e2 := if p.startDt.Some? then e1.(start := LocalInstant(p.startDt.value)) else e1;
    var e3 := if p.endDt.Some? then e2.(end := LocalInstant(p.endDt.value)) else e2;
    var e4 := if p.colorKey.Some? then e3.(colorKey := ValidateColor(p.colorKey.value)) else e3;
    if p.description.Some? then e4.(description := Strip(p.description.value)) else e4
  }

  /** An update that passes no field leaves the event as it was. */
  lemma NoChangesIsIdentity(e: Event)
    ensures ApplyPatch(e, NO_CHANGES) == e
  {
  }

  /**
   * Applying the same patch twice gives what applying it once gave: every
   * normalisation is idempotent.
   */
  lemma ApplyPatchIdempotent(e: Event, p: Patch)
    ensures ApplyPatch(ApplyPatch(e, p), p) == ApplyPatch(e, p)
  {
  }

  /**
   * The store's collection invariant, `end >= start`, holds after an update exactly
   * when the patched values pass the check at core/calendar.py:117.
   */
  predicate Ordered(e: Event) {
    e.start <= e.end
  }
}
