/**
 * The observer registry and its dispatch loop (class ObserverPatternMixin).
 *
 * An observer is any value of type O.  Whether the language considers it
 * callable is the predicate `isCallable`, fixed when the registry is made.
 * Calling an observer is the function `call`: it receives the observer, the
 * notification's arguments and the state of the world the observers act on,
 * and returns whether the observer's answer is truthy ("consumed") together
 * with the new state of the world.
 */
module Observer {
  import opened Wrappers

  /** The errors the registry itself raises. */
  datatype Error<O> =
    | TypeError(offender: O)   // register_observer was given a value that is not callable
    | UnboundLocalError        // notify on an empty list: the loop never bound `count`

  /** The state of the world after calling every observer of `obs`, in order, with `args`, from `w`. */
  function WorldAfter<O, A, W>(obs: seq<O>, call: (O, A, W) -> (bool, W), args: A, w: W): W
    decreases |obs|
  {
    if obs == [] then w
    else call(obs[|obs| - 1], args, WorldAfter(obs[..|obs| - 1], call, args, w)).1
  }

  /** Whether the observer at position `k` consumes the notification when called after all its predecessors. */
  predicate ConsumesAt<O, A, W>(obs: seq<O>, call: (O, A, W) -> (bool, W), args: A, w: W, k: int)
    requires 0 <= k < |obs|
  {
    call(obs[k], args, WorldAfter(obs[..k], call, args, w)).0
  }

  /**
   * The removal of unregister_observer, made total: `s` without its first
   * occurrence of `x`.  An absent `x`, which the membership guard keeps away
   * from Python's list.remove (that would raise ValueError), leaves `s` as it is.
   */
  function RemoveFirst<O(==)>(s: seq<O>, x: O): (r: seq<O>)
    ensures x !in s ==> r == s
    ensures x in s ==> |r| == |s| - 1
    ensures multiset(r) == multiset(s) - multiset{x}
  {
    if s == [] then []
    else
      assert s == [s[0]] + s[1..];
      if s[0] == x then s[1..] else [s[0]] + RemoveFirst(s[1..], x)
  }

  /** Removing `x` takes out exactly its first occurrence and keeps everything before and after it. */
  lemma {:induction false} RemoveFirstAt<O>(s: seq<O>, x: O, i: nat)
    requires i < |s| && s[i] == x && x !in s[..i]
    ensures RemoveFirst(s, x) == s[..i] + s[i + 1..]
  {
    if i > 0 {
      assert s[0] != x by { assert s[0] == s[..i][0]; }
      assert x !in s[1..][..i - 1] by { assert s[1..][..i - 1] == s[..i][1..]; }
      RemoveFirstAt(s[1..], x, i - 1);
      assert s[..i] == [s[0]] + s[1..][..i - 1];
      assert s[i + 1..] == s[1..][i..];
    }
  }

  /** Appending an observer that was not yet present and then removing it restores the list. */
  lemma {:induction false} RemoveFirstAppended<O>(s: seq<O>, x: O)
    requires x !in s
    ensures RemoveFirst(s + [x], x) == s
  {
    assert (s + [x])[..|s|] == s;
    RemoveFirstAt(s + [x], x, |s|);
  }

  class ObserverPatternMixin<O(==)> {
    /** The language's `callable` test, as it applies to values of type O. */
    const isCallable: O -> bool
    /** The registered observers; registration order is dispatch order. */
    var observers: seq<O>

    /** Every registered observer was found callable when it was registered. */
    ghost predicate Valid()
      reads this
    {
      forall o :: o in observers ==> isCallable(o)
    }

    /** A fresh object starts with no observers. */
    constructor (isCallable: O -> bool)
      ensures this.isCallable == isCallable
      ensures observers == [] && Valid()
    {
      this.isCallable := isCallable;
      observers := [];
    }

    /** Appends a callable observer; a value that is not callable raises TypeError and changes nothing. */
    method RegisterObserver(o: O) returns (r: Result<(), Error<O>>)
      requires Valid()
      modifies this
      ensures Valid()
      ensures r == if isCallable(o) then Ok(()) else Err(TypeError(o))
      ensures observers == if isCallable(o) then old(observers) + [o] else old(observers)
    {
      if !isCallable(o) {
        return Err(TypeError(o));
      }
      observers := observers + [o];
      return Ok(());
    }

    /** Removes the first occurrence of `o`; answers whether there was one. */
    method UnregisterObserver(o: O) returns (removed: bool)
      requires Valid()
      modifies this
      ensures Valid()
      ensures removed == (o in old(observers))
      ensures observers == RemoveFirst(old(observers), o)
    {
      if o !in observers {
        return false;
      }
      ghost var before := observers;
      observers := RemoveFirst(observers, o);
      forall p | p in observers ensures isCallable(p) {
        assert p in multiset(observers);
        assert p in multiset(before);
      }
      return true;
    }

    /**
     * Calls the observers in order with the same `args` until one consumes.
     * Returns how many were called: the 1-based position of the first one
     * that consumed, or the length of the list when none did before the last.
     * An empty list raises, because the loop never binds its counter.
     * The observer list itself is left as it is.  Every listed observer is
     * callable, as registration guarantees, so no call can raise TypeError.
     */
    method Notify<A, W>(call: (O, A, W) -> (bool, W), args: A, w0: W) returns (r: Result<nat, Error<O>>, w: W)
      requires Valid()
      ensures r.Err? <==> observers == []
      ensures r.Err? ==> r.error == UnboundLocalError && w == w0
      ensures r.Ok? ==>
        && 1 <= r.value <= |observers|
        && (forall j :: 0 <= j < r.value - 1 ==> !ConsumesAt(observers, call, args, w0, j))
        && (r.value < |observers| ==> ConsumesAt(observers, call, args, w0, r.value - 1))
        && w == WorldAfter(observers[..r.value], call, args, w0)
    {
      w := w0;
      var count: nat := 0;
      while count < |observers|
        invariant count <= |observers|
        invariant w == WorldAfter(observers[..count], call, args, w0)
        invariant forall j :: 0 <= j < count ==> !ConsumesAt(observers, call, args, w0, j)
      {
        var res := call(observers[count], args, w);
        var consumed := res.0;
        w := res.1;
        assert observers[..count + 1][..count] == observers[..count];
        count := count + 1;
        if consumed {
          break;
        }
      }
      if count == 0 {
        return Err(UnboundLocalError), w;
      }
      r := Ok(count);
    }
  }
}
