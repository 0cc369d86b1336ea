/**
 * Ad schedule windows: half-open, with a missing start for "always has been" and a missing end for
 * "never ends", in the three encodings the program uses: a derivation, row filters, and an
 * arithmetic test over infinities.
 */
module AdWindow {
  import opened Common

  type Instant = int

  datatype Window = Window(startAt: Option<Instant>, expiresAt: Option<Instant>)

  datatype State = Scheduled | Live | Paused | Ended

  // ---- the derivation -----------------------------------------------------------------

  function DeriveAdState(w: Window, isActive: bool, now: Instant): State {
    if w.expiresAt.Some? && now >= w.expiresAt.value then Ended
    else if w.startAt.Some? && now < w.startAt.value then Scheduled
    else if !isActive then Paused
    else Live
  }

  // ---- the row filters ----------------------------------------------------------------

  /** A nullable column compared with a value: a null matches no comparison. */
  predicate ColumnBefore(column: Option<Instant>, t: Instant) { column.Some? && column.value < t }

  predicate ColumnAtOrBefore(column: Option<Instant>, t: Instant) { column.Some? && column.value <= t }

  predicate ColumnAfter(column: Option<Instant>, t: Instant) { column.Some? && column.value > t }

  predicate LiveWindowFilter(w: Window, isActive: bool, now: Instant) {
    isActive &&
    (w.expiresAt.None? || ColumnAfter(w.expiresAt, now)) &&
    (w.startAt.None? || ColumnAtOrBefore(w.startAt, now))
  }

  /** The rows `row` whose window could overlap `w`; an unset bound of `w` adds no condition. */
  predicate OverlappingWindowFilter(row: Window, w: Window) {
    (w.expiresAt.Some? ==> row.startAt.None? || ColumnBefore(row.startAt, w.expiresAt.value)) &&
    (w.startAt.Some? ==> row.expiresAt.None? || ColumnAfter(row.expiresAt, w.startAt.value))
  }

  // ---- the arithmetic test ------------------------------------------------------------

  datatype Bound = MinusInfinity | At(t: Instant) | PlusInfinity

  predicate Less(a: Bound, b: Bound) {
    match (a, b)
    case (MinusInfinity, MinusInfinity) => false
    case (MinusInfinity, _) => true
    case (At(s), At(t)) => s < t
    case (At(_), PlusInfinity) => true
    case _ => false
  }

  function Start(w: Window): Bound {
    if w.startAt.Some? then At(w.startAt.value) else MinusInfinity
  }

  function End(w: Window): Bound {
    if w.expiresAt.Some? then At(w.expiresAt.value) else PlusInfinity
  }

  predicate WindowsOverlap(a: Window, b: Window) {
    Less(Start(a), End(b)) && Less(Start(b), End(a))
  }

  // ---- what the encodings mean --------------------------------------------------------

  /** The instants a window covers. */
  predicate Covers(w: Window, t: Instant) {
    (w.startAt.None? || w.startAt.value <= t) && (w.expiresAt.None? || t < w.expiresAt.value)
  }

  predicate NonEmpty(w: Window) {
    w.startAt.None? || w.expiresAt.None? || w.startAt.value < w.expiresAt.value
  }

  lemma NonEmptyCovers(w: Window)
    ensures NonEmpty(w) <==> exists t :: Covers(w, t)
  {
    var t := if w.startAt.Some? then w.startAt.value
             else if w.expiresAt.Some? then w.expiresAt.value - 1 else 0;
    if NonEmpty(w) {
      assert Covers(w, t);
    }
  }

  /** Live is exactly: not paused, and the instant is in the window. The row filter is its twin. */
  lemma LiveIsTheFilter(w: Window, isActive: bool, now: Instant)
    ensures DeriveAdState(w, isActive, now).Live? <==> isActive && Covers(w, now)
    ensures LiveWindowFilter(w, isActive, now) <==> DeriveAdState(w, isActive, now).Live?
  {
  }

  /** An ad never comes back after its end, and moves only Scheduled to running to Ended while unedited. */
  lemma StatesAdvance(w: Window, isActive: bool, s: Instant, t: Instant)
    requires s <= t && NonEmpty(w)
    ensures var before, after := DeriveAdState(w, isActive, s), DeriveAdState(w, isActive, t);
      (before.Ended? ==> after.Ended?) && (!before.Scheduled? ==> !after.Scheduled?)
  {
  }

  /** The row filter selects exactly the windows the arithmetic test accepts. */
  lemma FilterIsTheTest(a: Window, b: Window)
    ensures OverlappingWindowFilter(b, a) <==> WindowsOverlap(a, b)
  {
  }

  /** Windows sharing an instant overlap; non-empty windows overlap only if they share one. */
  lemma OverlapIsSharing(a: Window, b: Window)
    ensures (exists t :: Covers(a, t) && Covers(b, t)) <==> WindowsOverlap(a, b) && NonEmpty(a) && NonEmpty(b)
  {
    if WindowsOverlap(a, b) && NonEmpty(a) && NonEmpty(b) {
      SharedInstant(a, b);
    }
  }

  /** The later start, or, with none, the instant before the earlier end. */
  lemma SharedInstant(a: Window, b: Window)
    requires WindowsOverlap(a, b) && NonEmpty(a) && NonEmpty(b)
    ensures exists t :: Covers(a, t) && Covers(b, t)
  {
    var t :=
      if a.startAt.Some? && b.startAt.Some? then Max(a.startAt.value, b.startAt.value)
      else if a.startAt.Some? then a.startAt.value
      else if b.startAt.Some? then b.startAt.value
      else if a.expiresAt.Some? && b.expiresAt.Some? then Min(a.expiresAt.value, b.expiresAt.value) - 1
      else if a.expiresAt.Some? then a.expiresAt.value - 1
      else if b.expiresAt.Some? then b.expiresAt.value - 1
      else 0;
    assert Covers(a, t) && Covers(b, t);
  }

  /** Windows that only touch, one ending where the other starts, do not overlap. */
  lemma TouchingIsNotOverlap(a: Window, b: Window)
    requires a.expiresAt.Some? && a.expiresAt == b.startAt
    ensures !WindowsOverlap(a, b)
  {
  }
}
