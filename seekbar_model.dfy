/** The state machine of the slider preference, as values.

    A `PrefState` holds the widget's two integers (the current value and the
    largest value) together with the three pieces of the host framework the
    widget talks to: whether the preference persists, what the key/value store
    holds for it, and how many change notifications it has sent. Each callback
    of the widget is a function from one state to the next; the class in
    seekbar_preference.dfy is proved to perform exactly these transitions. */
module SeekBarModel {
  import opened Wrappers
  import opened JavaInt

  /** The smallest largest value the widget accepts, and its fallback. */
  const MIN_MAX_VALUE: int32 := 2
  /** The value at the slider's left end, and the substitute for an out-of-range input. */
  const MIN_VALUE: int32 := 1

  /** How the lookup of the `maxValue` markup attribute ends. */
  datatype MaxAttribute =
    | Absent               // not declared: the lookup yields its default, 2
    | Declared(n: int32)   // declared with an integer value
    | Unsupported          // the lookup threw UnsupportedOperationException

  datatype PrefState = PrefState(
    progress: int32,       // the value shown, 1..maxValue
    maxValue: int32,       // the largest value, at least 2
    shouldPersist: bool,   // the host's shouldPersist()
    stored: Option<int32>, // what the host's key/value store holds for this preference
    notifications: nat     // how many times notifyChanged() has been called
  )

  /** The widget's invariant: a slider of at least two values, showing one of them. */
  ghost predicate Inv(s: PrefState) {
    MIN_MAX_VALUE <= s.maxValue && MIN_VALUE <= s.progress <= s.maxValue
  }

  /** Everything in the store is a value the slider can show. */
  ghost predicate StoredInRange(s: PrefState) {
    s.stored.Some? ==> MIN_VALUE <= s.stored.value <= s.maxValue
  }

  // ---------------------------------------------------------------- construction

  /** The largest value the constructor settles on for a given attribute lookup. */
  function ResolveMaxValue(attr: MaxAttribute): (m: int32)
    ensures MIN_MAX_VALUE <= m
    ensures attr.Declared? && MIN_MAX_VALUE <= attr.n ==> m == attr.n
    ensures !(attr.Declared? && MIN_MAX_VALUE <= attr.n) ==> m == MIN_MAX_VALUE
  {
    match attr
    case Unsupported => MIN_MAX_VALUE
    case Absent => MIN_MAX_VALUE
    case Declared(n) => if n < MIN_MAX_VALUE then MIN_MAX_VALUE else n
  }

  /** The state right after construction. */
  function Initial(attr: MaxAttribute, persist: bool, stored: Option<int32>): (s: PrefState)
    ensures Inv(s)
    ensures s.progress == MIN_VALUE && s.notifications == 0
    ensures s.maxValue == ResolveMaxValue(attr)
    ensures s.shouldPersist == persist && s.stored == stored
  {
    PrefState(MIN_VALUE, ResolveMaxValue(attr), persist, stored, 0)
  }

  // ---------------------------------------------------------------- setValue

  /** The value setValue stores for an input: the input itself when it lies in
      [1, maxValue], and 1 otherwise. */
  function Clamp(pValue: int32, maxValue: int32): (v: int32)
    ensures v == pValue || v == MIN_VALUE
    ensures MIN_VALUE <= maxValue ==> MIN_VALUE <= v <= maxValue
    ensures MIN_VALUE <= maxValue ==> (v == pValue <==> MIN_VALUE <= pValue <= maxValue)
  {
    if MIN_VALUE <= pValue && pValue <= maxValue then pValue else MIN_VALUE
  }

  /** setValue: persist the clamped input when persistence is on; then, when the
      RAW input differs from the current value, take the clamped input and notify. */
  function SetValue(s: PrefState, pValue: int32): (t: PrefState)
    ensures Inv(s) ==> Inv(t) && t.progress == Clamp(pValue, s.maxValue)
    ensures pValue == s.progress ==> t.progress == s.progress
    ensures t.progress == if pValue != s.progress then Clamp(pValue, s.maxValue) else s.progress
    ensures t.maxValue == s.maxValue && t.shouldPersist == s.shouldPersist
    ensures s.shouldPersist ==> t.stored == Some(Clamp(pValue, s.maxValue))
    ensures !s.shouldPersist ==> t.stored == s.stored
    ensures t.notifications == s.notifications + (if pValue != s.progress then 1 else 0)
  {
    var value := Clamp(pValue, s.maxValue);
    var persisted := if s.shouldPersist then s.(stored := Some(value)) else s;
    if pValue != persisted.progress then
      persisted.(progress := value, notifications := persisted.notifications + 1)
    else
      persisted
  }

  /** Every change of the shown value is announced by exactly one notification. */
  lemma SetValueChangeIsNotified(s: PrefState, pValue: int32)
    ensures SetValue(s, pValue).progress != s.progress
            ==> SetValue(s, pValue).notifications == s.notifications + 1
  {
  }

  /** Because setValue compares the raw input, an out-of-range input while the
      value is already 1 sends a notification although nothing visible changes. */
  lemma SetValueOutOfRangeAtOneNotifies(s: PrefState, pValue: int32)
    requires Inv(s) && s.progress == MIN_VALUE
    requires !(MIN_VALUE <= pValue <= s.maxValue)
    ensures SetValue(s, pValue).progress == s.progress
    ensures SetValue(s, pValue).notifications == s.notifications + 1
  {
  }

  /** Repeating setValue with the same input leaves the value where the first
      call put it; the repeat notifies again exactly when the input is out of range. */
  lemma SetValueRepeated(s: PrefState, pValue: int32)
    requires Inv(s)
    ensures SetValue(SetValue(s, pValue), pValue).progress == SetValue(s, pValue).progress
    ensures SetValue(SetValue(s, pValue), pValue).stored == SetValue(s, pValue).stored
    ensures SetValue(SetValue(s, pValue), pValue).notifications
            == SetValue(s, pValue).notifications + (if MIN_VALUE <= pValue <= s.maxValue then 0 else 1)
  {
  }

  // ---------------------------------------------------------------- the slider

  /** What onBindView hands to the slider: its largest position and its position. */
  datatype Slider = Slider(max: int32, position: int32)

  /** The value a slider position stands for, computed as Java computes `position + 1`. */
  function PositionValue(position: int32): (v: int32)
    ensures position < MAX_INT ==> v == position + 1
    ensures position == MAX_INT ==> v == MIN_INT
  {
    Wrap(position + 1)
  }

  /** onBindView's slider setup: positions 0..maxValue-1, at the position of the
      current value, so that the position stands for exactly that value. */
  function BindSlider(s: PrefState): (b: Slider)
    requires Inv(s)
    ensures 0 <= b.position <= b.max
    ensures b.max + 1 == s.maxValue
    ensures PositionValue(b.position) == s.progress
  {
    Slider(s.maxValue - 1, s.progress - 1)
  }

  /** Every position of the bound slider stands for a value the widget can show,
      and the slider is bound at that position when the widget shows that value. */
  lemma SliderPositionRoundTrip(s: PrefState, position: int32)
    requires Inv(s)
    requires 0 <= position <= BindSlider(s).max
    ensures MIN_VALUE <= PositionValue(position) <= s.maxValue
    ensures BindSlider(s.(progress := PositionValue(position))).position == position
  {
  }

  /** Every value the widget can show has a slider position standing for it. */
  lemma SliderValueRoundTrip(s: PrefState, value: int32)
    requires Inv(s)
    requires MIN_VALUE <= value <= s.maxValue
    ensures PositionValue(BindSlider(s.(progress := value)).position) == value
    ensures BindSlider(s.(progress := value)).max == BindSlider(s).max
  {
  }

  // ---------------------------------------------------------------- onProgressChanged

  /** onProgressChanged: ignore changes the program made; a change by the user
      at `position` sets the value `position + 1`. */
  function OnProgressChanged(s: PrefState, position: int32, fromUser: bool): (t: PrefState)
    ensures !fromUser ==> t == s
    ensures fromUser ==> t == SetValue(s, PositionValue(position))
  {
    if !fromUser then s else SetValue(s, PositionValue(position))
  }

  /** A user move to a position of the slider shows the value that position
      stands for, and notifies exactly when that value is new. */
  lemma UserMoveInRange(s: PrefState, position: int32)
    requires Inv(s)
    requires 0 <= position <= BindSlider(s).max
    ensures OnProgressChanged(s, position, true).progress == position + 1
    ensures OnProgressChanged(s, position, true).notifications
            == s.notifications + (if position + 1 != s.progress then 1 else 0)
  {
  }

  /** A user event at the position the slider was bound at changes nothing but
      the store, and sends no notification. */
  lemma UserEventAtBoundPosition(s: PrefState)
    requires Inv(s)
    ensures OnProgressChanged(s, BindSlider(s).position, true).progress == s.progress
    ensures OnProgressChanged(s, BindSlider(s).position, true).notifications == s.notifications
    ensures OnProgressChanged(s, BindSlider(s).position, true).stored
            == if s.shouldPersist then Some(s.progress) else s.stored
  {
  }

  /** A position outside the bound slider's range, including the largest Java
      `int` whose successor wraps around, resets the value to 1 and notifies. */
  lemma UserMoveOutsideSlider(s: PrefState, position: int32)
    requires Inv(s)
    requires !(0 <= position <= BindSlider(s).max)
    ensures OnProgressChanged(s, position, true).progress == MIN_VALUE
    ensures OnProgressChanged(s, position, true).notifications == s.notifications + 1
  {
  }

  // ---------------------------------------------------------------- initial value

  /** The host's getPersistedInt: the stored value when the preference persists
      and something is stored, the caller's default otherwise. */
  function PersistedInt(s: PrefState, default: int32): (r: int32)
    ensures s.shouldPersist && s.stored.Some? ==> r == s.stored.value
    ensures !(s.shouldPersist && s.stored.Some?) ==> r == default
  {
    if s.shouldPersist then s.stored.GetOr(default) else default
  }

  /** onSetInitialValue: setValue with the persisted value (falling back to the
      current value) when restoring, with the default otherwise. */
  function OnSetInitialValue(s: PrefState, restore: bool, defaultValue: int32): (t: PrefState)
    ensures Inv(s) && !restore ==> t.progress == Clamp(defaultValue, s.maxValue)
    ensures Inv(s) && restore ==> t.progress == Clamp(PersistedInt(s, s.progress), s.maxValue)
    ensures t.maxValue == s.maxValue && t.shouldPersist == s.shouldPersist
    ensures s.shouldPersist ==>
              t.stored == Some(Clamp(if restore then PersistedInt(s, s.progress) else defaultValue, s.maxValue))
    ensures !s.shouldPersist ==> t.stored == s.stored
    ensures t.notifications == s.notifications
            + (if (if restore then PersistedInt(s, s.progress) else defaultValue) != s.progress then 1 else 0)
  {
    SetValue(s, if restore then PersistedInt(s, s.progress) else defaultValue)
  }

  /** The default value read from markup, falling back to 1 when the attribute
      gives none. */
  function OnGetDefaultValue(attr: Option<int32>): (d: int32)
    ensures attr.Some? ==> d == attr.value
    ensures attr.None? ==> d == MIN_VALUE
  {
    attr.GetOr(MIN_VALUE)
  }

  /** Restoring with nothing to restore keeps the current value silently. */
  lemma RestoreWithoutStoredValueIsSilent(s: PrefState)
    requires Inv(s)
    requires !s.shouldPersist || s.stored.None?
    ensures OnSetInitialValue(s, true, 0).progress == s.progress
    ensures OnSetInitialValue(s, true, 0).notifications == s.notifications
  {
  }

  /** A value the widget persisted is the value it shows again when a widget
      with the same largest value is restored from that store. */
  lemma PersistRestoreRoundTrip(s: PrefState, pValue: int32, later: PrefState, defaultValue: int32)
    requires Inv(s) && s.shouldPersist
    requires Inv(later) && later.shouldPersist && later.maxValue == s.maxValue
    requires later.stored == SetValue(s, pValue).stored
    ensures OnSetInitialValue(later, true, defaultValue).progress == SetValue(s, pValue).progress
  {
  }

  // ---------------------------------------------------------------- callback sequences

  /** The widget's two state-changing host callbacks, plus its private setValue,
      which both of them call. */
  datatype Callback =
    | SetValueCall(pValue: int32)
    | ProgressChanged(position: int32, fromUser: bool)
    | SetInitialValue(restore: bool, defaultValue: int32)

  /** One callback. */
  function Apply(s: PrefState, c: Callback): (t: PrefState)
    ensures Inv(s) ==> Inv(t)
    ensures t.maxValue == s.maxValue && t.shouldPersist == s.shouldPersist
    ensures s.notifications <= t.notifications <= s.notifications + 1
    ensures t.progress != s.progress ==> t.notifications == s.notifications + 1
    ensures !s.shouldPersist ==> t.stored == s.stored
    ensures Inv(s) && t.stored != s.stored ==> StoredInRange(t)
    ensures Inv(s) && StoredInRange(s) ==> StoredInRange(t)
  {
    match c
    case SetValueCall(v) => SetValue(s, v)
    case ProgressChanged(p, u) => OnProgressChanged(s, p, u)
    case SetInitialValue(r, d) => OnSetInitialValue(s, r, d)
  }

  /** A sequence of such calls, in order. */
  function Run(s: PrefState, cs: seq<Callback>): (t: PrefState)
    decreases |cs|
  {
    if cs == [] then s else Run(Apply(s, cs[0]), cs[1..])
  }

  /** No sequence of callbacks breaks the invariant or changes the largest value. */
  lemma {:induction false} RunPreservesInv(s: PrefState, cs: seq<Callback>)
    requires Inv(s)
    ensures Inv(Run(s, cs))
    ensures Run(s, cs).maxValue == s.maxValue
    ensures Run(s, cs).shouldPersist == s.shouldPersist
    decreases |cs|
  {
    if cs != [] {
      RunPreservesInv(Apply(s, cs[0]), cs[1..]);
    }
  }

  /** Each callback sends at most one notification. */
  lemma {:induction false} RunNotificationsBounded(s: PrefState, cs: seq<Callback>)
    ensures s.notifications <= Run(s, cs).notifications <= s.notifications + |cs|
    decreases |cs|
  {
    if cs != [] {
      RunNotificationsBounded(Apply(s, cs[0]), cs[1..]);
    }
  }

  /** Whenever a sequence of callbacks changes the shown value, observers were notified. */
  lemma {:induction false} RunChangeIsNotified(s: PrefState, cs: seq<Callback>)
    ensures Run(s, cs).progress != s.progress ==> Run(s, cs).notifications > s.notifications
    decreases |cs|
  {
    if cs != [] {
      var u := Apply(s, cs[0]);
      RunChangeIsNotified(u, cs[1..]);
      RunNotificationsBounded(u, cs[1..]);
    }
  }

  /** A preference that does not persist never touches the store. */
  lemma {:induction false} RunWithoutPersistenceKeepsStore(s: PrefState, cs: seq<Callback>)
    requires !s.shouldPersist
    ensures Run(s, cs).stored == s.stored
    decreases |cs|
  {
    if cs != [] {
      RunWithoutPersistenceKeepsStore(Apply(s, cs[0]), cs[1..]);
    }
  }

  /** The widget only ever persists values it can show. */
  lemma {:induction false} RunStoresOnlyValidValues(s: PrefState, cs: seq<Callback>)
    requires Inv(s) && StoredInRange(s)
    ensures StoredInRange(Run(s, cs))
    decreases |cs|
  {
    if cs != [] {
      RunStoresOnlyValidValues(Apply(s, cs[0]), cs[1..]);
    }
  }
}
