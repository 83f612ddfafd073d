/** The slider preference as an object: the two fields the Java class keeps,
    beside the three pieces of host state it reads and writes, and one method
    per behaviour, each proved to perform the matching transition of
    SeekBarModel. */
module SeekBarWidget {
  import opened Wrappers
  import opened JavaInt
  import opened SeekBarModel

  class SeekBarPreference {
    var seekBarProgress: int32
    var seekBarMaxValue: int32
    /** The host's shouldPersist(). */
    var shouldPersist: bool
    /** The host key/value store's entry for this preference. */
    var stored: Option<int32>
    /** How many times the host's notifyChanged() has been called. */
    var notifications: nat

    /** The object's state as a value of the model. */
    function Snapshot(): (s: PrefState)
      reads this
    {
      PrefState(seekBarProgress, seekBarMaxValue, shouldPersist, stored, notifications)
    }

    ghost predicate Valid()
      reads this
    {
      Inv(Snapshot())
    }

    /** The constructor: value 1, and the largest value taken from the
        `maxValue` attribute, replaced by 2 when it is below 2 or unreadable. */
    constructor (maxAttr: MaxAttribute, persist: bool, storedValue: Option<int32>)
      ensures Valid()
      ensures Snapshot() == Initial(maxAttr, persist, storedValue)
    {
      seekBarProgress := MIN_VALUE;
      var maxValue: int32;
      match maxAttr {
        case Unsupported =>
          maxValue := MIN_MAX_VALUE;
        case Absent =>
          maxValue := MIN_MAX_VALUE;
        case Declared(n) =>
          maxValue := n;
          if maxValue < MIN_MAX_VALUE {
            maxValue := MIN_MAX_VALUE;
          }
      }
      seekBarMaxValue := maxValue;
      shouldPersist := persist;
      stored := storedValue;
      notifications := 0;
    }

    /** setValue: clamp, persist when persistence is on, and take the clamped
        value and notify when the raw input differs from the current value. */
    method SetValue(pValue: int32)
      requires Valid()
      modifies this
      ensures Valid()
      ensures Snapshot() == SeekBarModel.SetValue(old(Snapshot()), pValue)
      ensures seekBarMaxValue == old(seekBarMaxValue)
      ensures seekBarProgress == Clamp(pValue, seekBarMaxValue)
      ensures notifications == old(notifications) + (if pValue != old(seekBarProgress) then 1 else 0)
      ensures stored == if shouldPersist then Some(seekBarProgress) else old(stored)
    {
      var value := if MIN_VALUE <= pValue && pValue <= seekBarMaxValue then pValue else MIN_VALUE;

      if shouldPersist {
        stored := Some(value);
      }

      if pValue != seekBarProgress {
        seekBarProgress := value;
        notifications := notifications + 1;
      }
    }

    /** The arithmetic of onBindView: the slider's largest position and its
        position, which stands for the current value. */
    method OnBindView() returns (sliderMax: int32, sliderPosition: int32)
      requires Valid()
      ensures Slider(sliderMax, sliderPosition) == BindSlider(Snapshot())
      ensures 0 <= sliderPosition <= sliderMax
      ensures PositionValue(sliderPosition) == seekBarProgress
    {
      sliderMax := seekBarMaxValue - 1;
      sliderPosition := seekBarProgress - 1;
    }

    /** onProgressChanged: a change by the user at `position` is setValue(position + 1);
        any other change is ignored. */
    method OnProgressChanged(position: int32, fromUser: bool)
      requires Valid()
      modifies this
      ensures Valid()
      ensures Snapshot() == SeekBarModel.OnProgressChanged(old(Snapshot()), position, fromUser)
      ensures !fromUser ==> Snapshot() == old(Snapshot())
    {
      if !fromUser {
        return;
      }

      SetValue(Wrap(position + 1));
    }

    /** onSetInitialValue: setValue with the persisted value (or the current
        value when none is persisted) when restoring, with the default otherwise. */
    method OnSetInitialValue(restorePersistedValue: bool, defaultValue: int32)
      requires Valid()
      modifies this
      ensures Valid()
      ensures Snapshot() == SeekBarModel.OnSetInitialValue(old(Snapshot()), restorePersistedValue, defaultValue)
    {
      SetValue(if restorePersistedValue then PersistedInt(Snapshot(), seekBarProgress) else defaultValue);
    }
  }

  /** A display of the widget as the host drives it: construct, set the initial
      value, bind the slider, and let the user drag it to its last position. */
  method ShowAndDragToEnd(maxAttr: MaxAttribute) returns (w: SeekBarPreference)
    ensures fresh(w) && w.Valid()
    ensures w.seekBarProgress == w.seekBarMaxValue == ResolveMaxValue(maxAttr)
    ensures w.stored == Some(w.seekBarMaxValue)
    ensures w.notifications == 1
  {
    w := new SeekBarPreference(maxAttr, true, None);
    w.OnSetInitialValue(false, OnGetDefaultValue(None));
    var sliderMax, sliderPosition := w.OnBindView();
    w.OnProgressChanged(sliderMax, true);
  }
}
