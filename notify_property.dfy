/** InterfaceGen/Examples/NotifyProperty.cs: a hand-written class raising `PropertyChanging` and
  * `PropertyChanged` around every real change of its `Id` property. An event's handlers are foreign
  * code, so invoking one is recorded as a notice: which handler, which event, the property name it
  * was given, and the value of `_id` it could observe at that moment. An event field holds its
  * handlers in subscription order; the empty list is the null delegate. */
module NotifyPropertyExample {
  import opened Wrappers

  /** A subscribed handler, identified by the subscriber's choice of number. */
  type Handler = nat

  datatype Event = PropertyChanging | PropertyChanged

  /** One handler invocation: `handler(this, new PropertyChang…EventArgs(propertyName))`. */
  datatype Notice = Notice(handler: Handler, event: Event, propertyName: string, idSeen: int)

  /** The object as its handlers and callers see it. */
  datatype Observed = Observed(id: int, changing: seq<Handler>, changed: seq<Handler>, notices: seq<Notice>)

  /** `event?.Invoke(this, args)`: every handler of the list, in order; nothing for null. */
  function Invocation(handlers: seq<Handler>, event: Event, propertyName: string, id: int): (r: seq<Notice>)
    ensures |r| == |handlers|
    ensures forall i :: 0 <= i < |r| ==> r[i] == Notice(handlers[i], event, propertyName, id)
  {
    seq(|handlers|, i requires 0 <= i < |handlers| => Notice(handlers[i], event, propertyName, id))
  }

  /** `OnPropertyChanging(propertyName)`: the changing handlers are invoked unless the name is null. */
  function Changing(s: Observed, propertyName: Option<string>): Observed
  {
    if propertyName.None? then s
    else s.(notices := s.notices + Invocation(s.changing, PropertyChanging, propertyName.value, s.id))
  }

  /** `OnPropertyChanged(propertyName)`. */
  function Changed(s: Observed, propertyName: Option<string>): Observed
  {
    if propertyName.None? then s
    else s.(notices := s.notices + Invocation(s.changed, PropertyChanged, propertyName.value, s.id))
  }

  /** `SetField(ref _id, newValue, force, propertyName)`: when forced or when the value differs, the
    * changing notices, the assignment and the changed notices, returning true; otherwise nothing. */
  function SetField(s: Observed, newValue: int, force: bool, propertyName: Option<string>): (Observed, bool)
  {
    if force || s.id != newValue then (Changed(Changing(s, propertyName).(id := newValue), propertyName), true)
    else (s, false)
  }

  // ---------------------------------------------------------------- what SetField promises

  /** An unforced set to the value already held returns false, keeps the field and raises nothing. */
  lemma EqualValueIsIgnored(s: Observed, propertyName: Option<string>)
    ensures SetField(s, s.id, false, propertyName) == (s, false)
  {
  }

  /** Otherwise the field takes the new value and true is returned; with a name, every changing
    * handler hears of it first, while the old value is still in place, and then every changed
    * handler, seeing the new value; only the notices grow. */
  lemma ChangeIsAnnounced(s: Observed, newValue: int, force: bool, name: string)
    requires force || s.id != newValue
    ensures var (t, r) := SetField(s, newValue, force, Some(name));
      r && t.id == newValue && t.changing == s.changing && t.changed == s.changed &&
      t.notices == s.notices + Invocation(s.changing, PropertyChanging, name, s.id) +
        Invocation(s.changed, PropertyChanged, name, newValue)
  {
  }

  /** A forced set assigns and notifies even when the value is the one already held. */
  lemma ForceNotifiesAlways(s: Observed, name: string)
    ensures var (t, r) := SetField(s, s.id, true, Some(name));
      r && |t.notices| == |s.notices| + |s.changing| + |s.changed|
  {
  }

  /** A null property name raises nothing, whatever is subscribed; the value is still assigned. */
  lemma NullNameRaisesNothing(s: Observed, newValue: int, force: bool)
    ensures SetField(s, newValue, force, None).0.notices == s.notices
    ensures Changing(s, None) == s && Changed(s, None) == s
  {
  }

  /** Setting the same value twice: the second set is ignored. */
  lemma SecondSetIsIgnored(s: Observed, newValue: int, propertyName: Option<string>)
    ensures var once := SetField(s, newValue, false, propertyName).0;
      SetField(once, newValue, false, propertyName) == (once, false)
  {
  }

  /** After `Dispose`, a change is still made but nobody hears of it. */
  lemma DisposedIsSilent(s: Observed, newValue: int, force: bool, propertyName: Option<string>)
    requires s.changing == [] && s.changed == []
    ensures SetField(s, newValue, force, propertyName).0.notices == s.notices
  {
  }

  // ---------------------------------------------------------------- the class

  class NotifyProperty {
    /** `_id`, the two event fields, and the notices handed to handlers so far. */
    var id: int
    var propertyChanging: seq<Handler>
    var propertyChanged: seq<Handler>
    var notices: seq<Notice>

    /** A new object: `_id` is 0 and nobody is subscribed. */
    constructor()
      ensures Snapshot() == Observed(0, [], [], [])
    {
      id := 0;
      propertyChanging := [];
      propertyChanged := [];
      notices := [];
    }

    function Snapshot(): Observed
      reads this
    {
      Observed(id, propertyChanging, propertyChanged, notices)
    }

    /** The `Id` getter. */
    function Id(): int
      reads this
    {
      id
    }

    /** The `Id` setter: `SetField<int>(ref _id, value)`, the caller's member name being `Id`. */
    method SetId(value: int)
      modifies this
      ensures Snapshot() == SetField(old(Snapshot()), value, false, Some("Id")).0
    {
      var _ := SetIdField(value, false, Some("Id"));
    }

    /** `SetField(ref _id, newValue, force, propertyName)`; `_id` is the only field it is used on. */
    method SetIdField(newValue: int, force: bool, propertyName: Option<string>) returns (r: bool)
      modifies this
      ensures (Snapshot(), r) == SetField(old(Snapshot()), newValue, force, propertyName)
    {
      if force || id != newValue {
        OnPropertyChanging(propertyName);
        id := newValue;
        OnPropertyChanged(propertyName);
        return true;
      }
      return false;
    }

    /** `OnPropertyChanging(propertyName)`. */
    method OnPropertyChanging(propertyName: Option<string>)
      modifies this
      ensures Snapshot() == Changing(old(Snapshot()), propertyName)
    {
      if propertyName.Some? {
        notices := notices + Invocation(propertyChanging, PropertyChanging, propertyName.value, id);
      }
    }

    /** `OnPropertyChanged(propertyName)`. */
    method OnPropertyChanged(propertyName: Option<string>)
      modifies this
      ensures Snapshot() == Changed(old(Snapshot()), propertyName)
    {
      if propertyName.Some? {
        notices := notices + Invocation(propertyChanged, PropertyChanged, propertyName.value, id);
      }
    }

    /** `PropertyChanging += handler`: the handler joins the end of the invocation list. */
    method AddPropertyChanging(handler: Handler)
      modifies this
      ensures Snapshot() == old(Snapshot()).(changing := old(propertyChanging) + [handler])
    {
      propertyChanging := propertyChanging + [handler];
    }

    /** `PropertyChanged += handler`. */
    method AddPropertyChanged(handler: Handler)
      modifies this
      ensures Snapshot() == old(Snapshot()).(changed := old(propertyChanged) + [handler])
    {
      propertyChanged := propertyChanged + [handler];
    }

    /** `Dispose()`: both events are set to null; the value and what was already raised stay. */
    method Dispose()
      modifies this
      ensures Snapshot() == old(Snapshot()).(changing := [], changed := [])
    {
      propertyChanging := [];
      propertyChanged := [];
    }
  }
}
