# SeekBarPreference, modelled in Dafny

`SeekBarPreference` is a settings-screen row that shows a labelled slider
instead of the default preference UI. It keeps two Java `int` fields: the
current value `seekBarProgress`, shown as 1..max, and the largest value
`seekBarMaxValue`, at least 2. The slider runs over positions 0..max-1, and
position p stands for value p+1. Each value set by the user or restored at
start-up is clamped to [1, max], with 1 as the fallback. It is written to the
host's key/value store when the preference persists. Observers are notified
when the raw input differs from the current value.

The project has four modules:

- `Wrappers` (`wrappers.dfy`): `Option`, used for the store entry and for attribute lookups.
- `JavaInt` (`java_int.dfy`): the `int32` type and Java's wrap-around arithmetic (`Wrap`).
- `SeekBarModel` (`seekbar_model.dfy`): the widget's state as a value (`PrefState`),
  one function per behaviour, and the lemmas about them. `Inv` is the invariant
  `2 <= maxValue && 1 <= progress <= maxValue`. `Run` applies a sequence of calls
  drawn from the widget's two state-changing host callbacks (`onProgressChanged`,
  `onSetInitialValue`) and its private `setValue`, which both of them call. The
  lemmas about `Run` state what holds over any such sequence.
- `SeekBarWidget` (`seekbar_preference.dfy`): the class `SeekBarPreference`, with the
  two Java fields and the three pieces of host state as fields. Each method is proved
  to perform exactly the matching transition of `SeekBarModel` and to keep `Valid()`.

The host framework becomes plain data:

- `shouldPersist()` is the boolean field `shouldPersist`.
- The key/value store entry is `stored: Option<int32>`. `persistInt(v)` sets it to `Some(v)`.
- `getPersistedInt(d)` follows the framework's documented behaviour. It returns the stored
  value when the preference persists and a value is stored, and `d` otherwise.
- `notifyChanged()` increments the counter `notifications`.
- The lookup of the `maxValue` attribute is a `MaxAttribute` constructor argument:
  `Absent`, `Declared(n)`, or `Unsupported` when the lookup throws
  `UnsupportedOperationException`.
- The default-value attribute read by `onGetDefaultValue` is an `Option<int32>`.

One might expect a notification only when the shown value changes. `setValue`
compares the RAW input with the current value (src/java/SeekBarPreference.java:68),
so an out-of-range input while the value is already 1 still notifies, although
nothing visible changes. The model reproduces this. `SetValueOutOfRangeAtOneNotifies` and `SetValueRepeated`
state the consequence.

## Model

| member | source | states |
|---|---|---|
| `JavaInt.Wrap` | src/java/SeekBarPreference.java:98 | the Java `int` result of an expression: congruent to the mathematical value modulo 2^32, and equal to it when it fits |
| `SeekBarModel.ResolveMaxValue` | src/java/SeekBarPreference.java:44-49 | the effective largest value is at least 2; a declared value of at least 2 is kept unchanged; a value below 2, a missing attribute or an unsupported lookup yields exactly 2 |
| `SeekBarModel.Initial` | src/java/SeekBarPreference.java:38-49 | after construction the invariant holds, the value is 1, the largest value is the resolved one, and no notification has been sent |
| `SeekBarModel.Clamp` | src/java/SeekBarPreference.java:64 | the stored value is the input or 1; it lies in [1, max]; it equals the input exactly when the input lies in [1, max] |
| `SeekBarModel.SetValue` | src/java/SeekBarPreference.java:63-72 | the new value is the clamped input when the raw input differs from the current value, and the current value otherwise; keeps the invariant; under it the new value is always the clamped input, because an input equal to the current value is already in range; an input equal to the current value leaves it unchanged; the clamped value is persisted when persistence is on; the store is untouched when it is off; the count grows by one exactly when the raw input differs from the current value; the largest value never changes |
| `SeekBarModel.SetValueChangeIsNotified` | src/java/SeekBarPreference.java:68-71 | every change of the shown value comes with exactly one notification |
| `SeekBarModel.SetValueOutOfRangeAtOneNotifies` | src/java/SeekBarPreference.java:64-71 | with the value at 1, an out-of-range input leaves the value at 1 and still notifies |
| `SeekBarModel.SetValueRepeated` | src/java/SeekBarPreference.java:63-72 | repeating an input leaves the value and the store as the first call left them; the repeat notifies again exactly when the input is out of range |
| `SeekBarModel.PositionValue` | src/java/SeekBarPreference.java:98 | a slider position p below the largest `int` stands for the value p + 1; at the largest `int`, `p + 1` wraps around to the smallest `int` |
| `SeekBarModel.BindSlider` | src/java/SeekBarPreference.java:88-89 | the slider's largest position is max - 1; its position lies between 0 and that largest position; the position stands for the current value |
| `SeekBarModel.SliderPositionRoundTrip` | src/java/SeekBarPreference.java:88-98 | every position of the bound slider stands for a value in [1, max]; with that value shown, the slider is bound at that same position |
| `SeekBarModel.SliderValueRoundTrip` | src/java/SeekBarPreference.java:88-98 | every value in [1, max] is shown at a position that stands for it; the slider's range does not depend on the value |
| `SeekBarModel.OnProgressChanged` | src/java/SeekBarPreference.java:95-99 | a change not made by the user changes nothing; a change by the user at p behaves exactly as setValue(p + 1) |
| `SeekBarModel.UserMoveInRange` | src/java/SeekBarPreference.java:95-99 | a user move to a slider position p shows p + 1, and notifies exactly when p + 1 differs from the current value |
| `SeekBarModel.UserEventAtBoundPosition` | src/java/SeekBarPreference.java:88-99 | a user event at the position the slider was bound at leaves the value unchanged and sends no notification; it only re-persists the current value when persistence is on |
| `SeekBarModel.UserMoveOutsideSlider` | src/java/SeekBarPreference.java:95-99 | a position outside the slider's range resets the value to 1 and notifies; this includes the largest `int`, whose successor wraps around |
| `SeekBarModel.PersistedInt` | src/java/SeekBarPreference.java:113 | the persisted value when persistence is on and a value is stored, the given default otherwise |
| `SeekBarModel.OnSetInitialValue` | src/java/SeekBarPreference.java:112-114 | when restoring, the new value is the clamped persisted value, falling back to the current value; otherwise it is the clamped default; the store receives that clamped value when persistence is on and is untouched when it is off; one notification is sent exactly when the raw restored or default value differs from the current value; the largest value never changes |
| `SeekBarModel.OnGetDefaultValue` | src/java/SeekBarPreference.java:117-119 | the attribute's integer when present, 1 otherwise |
| `SeekBarModel.RestoreWithoutStoredValueIsSilent` | src/java/SeekBarPreference.java:112-114 | restoring with nothing stored or persistence off keeps the current value and sends no notification |
| `SeekBarModel.PersistRestoreRoundTrip` | src/java/SeekBarPreference.java:63-114 | a value persisted by setValue is the value shown again when a widget with the same largest value restores from that store |
| `SeekBarModel.Apply` | src/java/SeekBarPreference.java:63-114 | any one callback keeps the invariant, the largest value and the persistence flag; it sends at most one notification; it notifies whenever it changes the value; it leaves the store alone when persistence is off; whatever it writes to the store lies in [1, max], so a store in range stays in range |
| `SeekBarModel.RunPreservesInv` | src/java/SeekBarPreference.java:63-114 | after any sequence of callbacks the invariant holds and the largest value is the one set at construction |
| `SeekBarModel.RunNotificationsBounded` | src/java/SeekBarPreference.java:63-114 | a sequence of n callbacks sends between 0 and n notifications |
| `SeekBarModel.RunChangeIsNotified` | src/java/SeekBarPreference.java:63-114 | if a sequence of callbacks changes the shown value, at least one notification was sent |
| `SeekBarModel.RunWithoutPersistenceKeepsStore` | src/java/SeekBarPreference.java:66 | a preference that does not persist never changes the store |
| `SeekBarModel.RunStoresOnlyValidValues` | src/java/SeekBarPreference.java:63-114 | if the store holds nothing outside [1, max], no sequence of callbacks puts such a value there |
| `SeekBarWidget.SeekBarPreference.constructor` | src/java/SeekBarPreference.java:35-56 | the new object satisfies the invariant, and its state is `Initial` of the attribute lookup |
| `SeekBarWidget.SeekBarPreference.SetValue` | src/java/SeekBarPreference.java:63-72 | the new state is `SeekBarModel.SetValue` of the old state: the value is the clamped input, the store holds it when persisting, the count grows by one iff the raw input differed from the old value, and the largest value is unchanged |
| `SeekBarWidget.SeekBarPreference.OnBindView` | src/java/SeekBarPreference.java:87-89 | returns the slider's largest position and its position as `BindSlider` gives them; the position is in range and stands for the current value |
| `SeekBarWidget.SeekBarPreference.OnProgressChanged` | src/java/SeekBarPreference.java:95-99 | the new state is `SeekBarModel.OnProgressChanged` of the old state; nothing changes when the change is not from the user |
| `SeekBarWidget.SeekBarPreference.OnSetInitialValue` | src/java/SeekBarPreference.java:112-114 | the new state is `SeekBarModel.OnSetInitialValue` of the old state |
| `SeekBarWidget.ShowAndDragToEnd` | src/java/SeekBarPreference.java:35-119 | construction, the default initial value, binding and a user drag to the last position show and persist the largest value, with exactly one notification |

## Left out

- View binding in `onBindView` is not modelled: `super.onBindView`, finding the title, min and max labels, `setText`, and registering the listener are UI plumbing. Only the slider arithmetic `max - 1` and `progress - 1` is kept.
- Resource and attribute machinery is not modelled: `Context`, `TypedArray`, `obtainStyledAttributes`, `recycle` and `setLayoutResource` are Android calls. The attribute lookups become constructor and function arguments.
- The internals of the `Preference` base class are not modelled. `shouldPersist`, `persistInt`, `getPersistedInt` and `notifyChanged` become the fields described above. `persistInt`'s own result and any failure to write are not modelled.
- `onStartTrackingTouch` and `onStopTrackingTouch` have empty bodies and are not modelled.
- The unchecked `(Integer) defaultValue` cast is not modelled. Its null and ClassCastException failures are host-language object typing. The default is taken as an `int32`.
- An exception from `getInt` in `onGetDefaultValue` is not modelled. The attribute is taken as either present with an integer or absent.
- The one-, two- and three-argument constructors only delegate to the four-argument one. They are not modelled.
- The host's main-thread callback driving is not modelled. `Run` treats it as a sequence of callbacks.
- The host's persistence flag (`shouldPersist()`, which depends on the preference being attached, persistent and keyed) is taken as constant for the life of a widget. `Apply`'s "keeps the persistence flag" and `RunWithoutPersistenceKeepsStore` hold of the widget's own calls under that assumption; `setPersistent`, `setKey` and attachment changes are not modelled.
