/**
 * The registry's documented scenarios.  The fixtures are two callbacks that
 * add the notified amount to a shared counter, one answering True and one
 * answering False, and a string, which is not callable.
 */
module ObserverScenarios {
  import opened Wrappers
  import opened Observer

  datatype Fixture =
    | NeverConsume        // adds the amount to the counter and answers False
    | AlwaysConsume       // adds the amount to the counter and answers True
    | Text(s: string)     // a plain string

  function IsCallable(f: Fixture): bool {
    !f.Text?
  }

  /**
   * Calling a fixture with `amount` when the counter holds `flag`: each
   * callback adds the amount, and only AlwaysConsume answers True.
   */
  function Invoke(f: Fixture, amount: int, flag: int): (r: (bool, int))
    ensures r.0 <==> f == AlwaysConsume
    ensures IsCallable(f) ==> r.1 == flag + amount
    ensures !IsCallable(f) ==> r.1 == flag
  {
    match f
    case NeverConsume => (false, flag + amount)
    case AlwaysConsume => (true, flag + amount)
    case Text(_) => (false, flag)  // never called: Notify only calls registered, callable observers
  }

  /**
   * Registering an observer that is not yet in the list and then
   * unregistering it restores the list.  The unregistration reports a removal
   * exactly when the registration succeeded.
   */
  method RegisterThenUnregister<O>(seg: ObserverPatternMixin<O>, o: O) returns (removed: bool)
    requires seg.Valid() && o !in seg.observers
    modifies seg
    ensures seg.Valid()
    ensures removed == seg.isCallable(o)
    ensures seg.observers == old(seg.observers)
  {
    var _ := seg.RegisterObserver(o);
    removed := seg.UnregisterObserver(o);
    if removed {
      RemoveFirstAppended(old(seg.observers), o);
    }
  }

  /** A registered callable is in the list. */
  method RegisterValid() returns (listed: bool)
    ensures listed
  {
    var seg := new ObserverPatternMixin(IsCallable);
    var _ := seg.RegisterObserver(NeverConsume);
    listed := NeverConsume in seg.observers;
  }

  /** A string is refused with TypeError and the list stays empty. */
  method RegisterInvalid() returns (r: Result<(), Error<Fixture>>, after: seq<Fixture>)
    ensures r == Err(TypeError(Text("I'm a string, i'm not callable"))) && after == []
  {
    var seg := new ObserverPatternMixin(IsCallable);
    r := seg.RegisterObserver(Text("I'm a string, i'm not callable"));
    after := seg.observers;
  }

  /** Two registrations give a list of two, in registration order. */
  method RegisterMany() returns (after: seq<Fixture>)
    ensures |after| == 2 && after == [AlwaysConsume, NeverConsume]
  {
    var seg := new ObserverPatternMixin(IsCallable);
    var _ := seg.RegisterObserver(AlwaysConsume);
    var _ := seg.RegisterObserver(NeverConsume);
    after := seg.observers;
  }

  /** Registering and then unregistering an observer leaves it out of the list. */
  method UnregisterValid() returns (removed: bool, after: seq<Fixture>)
    ensures removed && NeverConsume !in after && after == []
  {
    var seg := new ObserverPatternMixin(IsCallable);
    var _ := seg.RegisterObserver(NeverConsume);
    removed := seg.UnregisterObserver(NeverConsume);
    after := seg.observers;
  }

  /** Unregistering an observer that was never registered answers False and changes nothing. */
  method UnregisterInvalid() returns (removed: bool, after: seq<Fixture>)
    ensures !removed && after == [AlwaysConsume]
  {
    var seg := new ObserverPatternMixin(IsCallable);
    var _ := seg.RegisterObserver(AlwaysConsume);
    removed := seg.UnregisterObserver(NeverConsume);
    after := seg.observers;
  }

  /** One consuming observer, notified with 1: the counter becomes 1 and one observer was called. */
  method NotifyOne() returns (count: Result<nat, Error<Fixture>>, flag: int)
    ensures count == Ok(1) && flag == 1
  {
    var seg := new ObserverPatternMixin(IsCallable);
    var _ := seg.RegisterObserver(AlwaysConsume);
    count, flag := seg.Notify(Invoke, 1, 0);
  }

  /** A non-consuming observer before a consuming one: both are called and the counter becomes 2. */
  method NotifyMany() returns (count: Result<nat, Error<Fixture>>, flag: int)
    ensures count == Ok(2) && flag == 2
  {
    var seg := new ObserverPatternMixin(IsCallable);
    var _ := seg.RegisterObserver(NeverConsume);
    var _ := seg.RegisterObserver(AlwaysConsume);
    var obs := seg.observers;
    assert obs[..0] == [] && obs[..1] == [NeverConsume] && obs[..2] == obs;
    assert !ConsumesAt(obs, Invoke, 1, 0, 0);
    count, flag := seg.Notify(Invoke, 1, 0);
  }

  /** A consuming observer first: the one after it is not called and the counter becomes 1. */
  method NotifyManyStopsCorrectly() returns (count: Result<nat, Error<Fixture>>, flag: int)
    ensures count == Ok(1) && flag == 1
  {
    var seg := new ObserverPatternMixin(IsCallable);
    var _ := seg.RegisterObserver(AlwaysConsume);
    var _ := seg.RegisterObserver(NeverConsume);
    var obs := seg.observers;
    assert obs[..0] == [] && obs[..1] == [AlwaysConsume];
    assert ConsumesAt(obs, Invoke, 1, 0, 0);
    count, flag := seg.Notify(Invoke, 1, 0);
  }

  /** The notified arguments reach the observer: notifying 2 adds 2 to the counter. */
  method NotifyWithArgs() returns (count: Result<nat, Error<Fixture>>, flag: int)
    ensures count == Ok(1) && flag == 2
  {
    var seg := new ObserverPatternMixin(IsCallable);
    var _ := seg.RegisterObserver(NeverConsume);
    count, flag := seg.Notify(Invoke, 2, 0);
  }

  /** Notifying an object with no observers raises instead of returning a count. */
  method NotifyEmpty() returns (count: Result<nat, Error<Fixture>>, flag: int)
    ensures count == Err(UnboundLocalError) && flag == 0
  {
    var seg := new ObserverPatternMixin(IsCallable);
    count, flag := seg.Notify(Invoke, 1, 0);
  }
}
