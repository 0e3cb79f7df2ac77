/**
 * The publish/subscribe registry of core/events.ts: a dictionary from event
 * name to the ordered list of listeners registered for it.
 */
module Events {

  /**
   * A registered function: one the caller passed to `on` (named by `id`), or the
   * wrapper closure `once` registers around the caller's `callback`; each call
   * of `once` makes a new closure, told apart by `serial`.
   */
  datatype Listener = Fn(id: nat) | OnceWrapper(serial: nat, callback: nat)

  /** The caller's function a listener ends up invoking. */
  function Target(l: Listener): nat {
    match l
    case Fn(id) => id
    case OnceWrapper(_, callback) => callback
  }

  /** One invocation of a caller's function with an event payload. */
  datatype Call<P> = Call(fn: nat, payload: P)

  /** The function `on` returns: calling it is `off(name, listener)`. */
  datatype Remover = Remover(name: string, listener: Listener)

  /** `ls.filter((fn) => fn !== l)`. */
  function Without(ls: seq<Listener>, l: Listener): (r: seq<Listener>)
    ensures |r| <= |ls|
    ensures l !in r
    decreases |ls|
  {
    if ls == [] then []
    else Without(ls[..|ls| - 1], l) + (if ls[|ls| - 1] == l then [] else [ls[|ls| - 1]])
  }

  /** The list once every `once` wrapper in it has fired and removed itself. */
  function WithoutOnce(ls: seq<Listener>): (r: seq<Listener>)
    ensures |r| <= |ls|
    ensures forall x :: x in r ==> x.Fn? && x in ls
    ensures forall x :: x in ls && x.Fn? ==> x in r
    decreases |ls|
  {
    if ls == [] then []
    else WithoutOnce(ls[..|ls| - 1]) + (if ls[|ls| - 1].OnceWrapper? then [] else [ls[|ls| - 1]])
  }

  /** The invocations `emit` makes for a listener list, in list order. */
  function CallsOf<P>(ls: seq<Listener>, payload: P): seq<Call<P>> {
    seq(|ls|, i requires 0 <= i < |ls| => Call(Target(ls[i]), payload))
  }

  /** The listeners registered for `name`, or none. */
  function Registered(m: map<string, seq<Listener>>, name: string): seq<Listener> {
    if name in m then m[name] else []
  }

  /** Stores a list for `name`, deleting the entry when the list is empty. */
  function Assign(m: map<string, seq<Listener>>, name: string, ls: seq<Listener>): (r: map<string, seq<Listener>>)
    ensures ls == [] ==> name !in r
    ensures ls != [] ==> name in r && r[name] == ls
  {
    if ls == [] then m - {name} else m[name := ls]
  }

  /**
   * `filter` removes every registration of `l` and nothing else, keeping the
   * rest in order: it distributes over concatenation, and occurrence counts drop
   * to zero for `l` and stay the same for every other listener.
   */
  lemma {:induction false} WithoutConcat(a: seq<Listener>, b: seq<Listener>, l: Listener)
    ensures Without(a + b, l) == Without(a, l) + Without(b, l)
    decreases |b|
  {
    if b == [] {
      assert a + b == a;
    } else {
      var b' := b[..|b| - 1];
      WithoutSnoc(a, b, l);
      WithoutConcat(a, b', l);
      var keep := if b[|b| - 1] == l then [] else [b[|b| - 1]];
      assert Without(a, l) + Without(b', l) + keep == Without(a, l) + (Without(b', l) + keep);
    }
  }

  /** Filtering `a + b` handles the last element of `b` last. */
  lemma WithoutSnoc(a: seq<Listener>, b: seq<Listener>, l: Listener)
    requires b != []
    ensures Without(a + b, l) == Without(a + b[..|b| - 1], l) + (if b[|b| - 1] == l then [] else [b[|b| - 1]])
  {
    assert (a + b)[..|a + b| - 1] == a + b[..|b| - 1];
  }

  lemma {:induction false} WithoutCounts(ls: seq<Listener>, l: Listener)
    ensures forall x :: multiset(Without(ls, l))[x] == if x == l then 0 else multiset(ls)[x]
    decreases |ls|
  {
    if ls != [] {
      var init := ls[..|ls| - 1];
      WithoutCounts(init, l);
      assert ls == init + [ls[|ls| - 1]];
    }
  }

  /** A list that does not mention `l` is left as it is. */
  lemma {:induction false} WithoutAbsent(ls: seq<Listener>, l: Listener)
    requires l !in ls
    ensures Without(ls, l) == ls
    decreases |ls|
  {
    if ls != [] {
      var init := ls[..|ls| - 1];
      assert ls == init + [ls[|ls| - 1]];
      WithoutAbsent(init, l);
    }
  }

  /** After every wrapper has fired, no `once` registration is left. */
  lemma {:induction false} WithoutOnceHasNoWrapper(ls: seq<Listener>)
    ensures forall l :: l in WithoutOnce(ls) ==> l.Fn? && l in ls
    decreases |ls|
  {
    if ls != [] {
      var init := ls[..|ls| - 1];
      WithoutOnceHasNoWrapper(init);
      assert ls == init + [ls[|ls| - 1]];
    }
  }

  /** A listener occurring at most once is not repeated after its position. */
  lemma {:induction false} NotRepeated(s: seq<Listener>, i: nat)
    requires i < |s|
    requires multiset(s)[s[i]] <= 1
    ensures s[i] !in s[i + 1..]
  {
    assert s == s[..i] + [s[i]] + s[i + 1..];
    assert multiset(s)[s[i]] == multiset(s[..i])[s[i]] + 1 + multiset(s[i + 1..])[s[i]];
  }

  /**
   * No name maps to an empty list (`off` deletes it), each `once` closure is
   * registered at most once per name, and only closures already created
   * (serial below `onceCount`) are registered.
   */
  ghost predicate WellFormed(m: map<string, seq<Listener>>, onceCount: nat) {
    && (forall name :: name in m ==> m[name] != [])
    && (forall name, w: Listener :: name in m && w.OnceWrapper? ==> multiset(m[name])[w] <= 1)
    && (forall name, w: Listener :: name in m && w in m[name] && w.OnceWrapper? ==> w.serial < onceCount)
  }

  /** Removing a listener keeps the registry well formed. */
  lemma {:induction false} WellFormedAfterOff(m: map<string, seq<Listener>>, onceCount: nat, name: string, l: Listener)
    requires WellFormed(m, onceCount) && name in m
    ensures WellFormed(Assign(m, name, Without(m[name], l)), onceCount)
  {
    var kept := Without(m[name], l);
    WithoutCounts(m[name], l);
    var m' := Assign(m, name, kept);
    forall n, w: Listener | n in m' && w.OnceWrapper?
      ensures multiset(m'[n])[w] <= 1
    {
      if n == name {
        assert multiset(kept)[w] <= multiset(m[name])[w];
      }
    }
    forall n, w: Listener | n in m' && w in m'[n] && w.OnceWrapper?
      ensures w.serial < onceCount
    {
      if n == name {
        assert multiset(m[name])[w] >= multiset(kept)[w] > 0;
      }
    }
  }

  /** Appending a plain function, or a closure newer than all registered ones, keeps it well formed. */
  lemma {:induction false} WellFormedAfterAppend(m: map<string, seq<Listener>>, onceCount: nat, name: string, l: Listener, onceCount': nat)
    requires WellFormed(m, onceCount)
    requires onceCount <= onceCount'
    requires l.OnceWrapper? ==> onceCount <= l.serial < onceCount'
    ensures WellFormed(m[name := Registered(m, name) + [l]], onceCount')
  {
    var ls := Registered(m, name);
    var m' := m[name := ls + [l]];
    if l.OnceWrapper? {
      assert l !in ls;
    }
    forall n, w: Listener | n in m' && w.OnceWrapper?
      ensures multiset(m'[n])[w] <= 1
    {
      if n == name {
        assert multiset(ls + [l])[w] == multiset(ls)[w] + (if w == l then 1 else 0);
      }
    }
  }

  /**
   * Storing a list touches no other name, and an empty list deletes the name,
   * after which its `listenerCount` is 0 and `emit` on it does nothing.
   */
  lemma AssignEffect(m: map<string, seq<Listener>>, name: string, ls: seq<Listener>)
    ensures var r := Assign(m, name, ls);
            && (ls == [] ==> name !in r)
            && (ls != [] ==> name in r && r[name] == ls)
            && (forall n :: n != name ==> (n in r <==> n in m) && (n in r ==> r[n] == m[n]))
  {
  }

  /** Storing twice for the same name keeps the second list only. */
  lemma {:induction false} AssignTwice(m: map<string, seq<Listener>>, name: string, a: seq<Listener>, b: seq<Listener>)
    requires a != []
    ensures Assign(Assign(m, name, a), name, b) == Assign(m, name, b)
  {
  }

  /**
   * The list while `emit` walks a snapshot `s`: the `once` closures before
   * position `i` have removed themselves, the rest is still there.
   */
  function Pending(s: seq<Listener>, i: nat): seq<Listener>
    requires i <= |s|
  {
    WithoutOnce(s[..i]) + s[i..]
  }

  /** The calls for a prefix one element longer. */
  lemma {:induction false} CallsOfSnoc<P>(past: seq<Call<P>>, s: seq<Listener>, i: nat, payload: P)
    requires i < |s|
    ensures past + CallsOf(s[..i + 1], payload) == (past + CallsOf(s[..i], payload)) + [Call(Target(s[i]), payload)]
  {
    assert CallsOf(s[..i + 1], payload) == CallsOf(s[..i], payload) + [Call(Target(s[i]), payload)];
  }

  /** `WithoutOnce` of a prefix one element longer. */
  lemma {:induction false} WithoutOnceSnoc(s: seq<Listener>, i: nat)
    requires i < |s|
    ensures WithoutOnce(s[..i + 1]) == WithoutOnce(s[..i]) + (if s[i].OnceWrapper? then [] else [s[i]])
  {
    assert s[..i + 1][..i] == s[..i];
  }

  /** One step of `emit` over a plain function: the pending list stays as it is. */
  lemma {:induction false} PendingStepFn(s: seq<Listener>, i: nat)
    requires i < |s| && s[i].Fn?
    ensures s[i] in Pending(s, i)
    ensures Pending(s, i) == Pending(s, i + 1)
  {
    var done := WithoutOnce(s[..i]);
    var both := (done + [s[i]]) + s[i + 1..];
    assert Pending(s, i + 1) == both by {
      WithoutOnceSnoc(s, i);
    }
    assert Pending(s, i) == both by {
      assert s[i..] == [s[i]] + s[i + 1..];
    }
    assert both[|done|] == s[i];
  }

  /** Removing a listener that occurs once, between two lists that lack it. */
  lemma {:induction false} WithoutSingle(done: seq<Listener>, l: Listener, rest: seq<Listener>)
    requires l !in done && l !in rest
    ensures Without(done + ([l] + rest), l) == done + rest
  {
    var tail := [l] + rest;
    assert Without(tail, l) == rest by {
      WithoutConcat([l], rest, l);
      WithoutAbsent(rest, l);
      assert Without([l], l) == [] by { assert [l][..0] == []; }
    }
    WithoutConcat(done, tail, l);
    WithoutAbsent(done, l);
  }

  /** One step of `emit` over a `once` closure: it removes exactly itself. */
  lemma {:induction false} PendingStepOnce(s: seq<Listener>, i: nat)
    requires i < |s| && s[i].OnceWrapper?
    requires multiset(s)[s[i]] <= 1
    ensures s[i] in Pending(s, i)
    ensures Without(Pending(s, i), s[i]) == Pending(s, i + 1)
  {
    var l := s[i];
    var done := WithoutOnce(s[..i]);
    var rest := s[i + 1..];
    assert Pending(s, i) == done + ([l] + rest) by {
      assert s[i..] == [l] + rest;
    }
    assert Pending(s, i + 1) == done + rest by {
      WithoutOnceSnoc(s, i);
    }
    assert l !in done && l !in rest by {
      NotRepeated(s, i);
    }
    WithoutSingle(done, l, rest);
  }

  /** Each `once` closure occurs at most once in `s`. */
  ghost predicate OnceUnique(s: seq<Listener>) {
    forall w: Listener :: w.OnceWrapper? ==> multiset(s)[w] <= 1
  }

  /**
   * One step of `emit` on the registry: with the name holding the pending
   * list, invoking the next listener of the snapshot leaves the pending list
   * of the following position.
   */
  lemma {:induction false} EmitStep(before: map<string, seq<Listener>>, name: string, s: seq<Listener>, i: nat)
    requires i < |s| && OnceUnique(s)
    ensures var cur := Assign(before, name, Pending(s, i));
      && name in cur && cur[name] == Pending(s, i) && s[i] in cur[name]
      && (s[i].OnceWrapper? ==> Assign(cur, name, Without(cur[name], s[i])) == Assign(before, name, Pending(s, i + 1)))
      && (s[i].Fn? ==> cur == Assign(before, name, Pending(s, i + 1)))
  {
    if s[i].OnceWrapper? {
      PendingStepOnce(s, i);
      AssignTwice(before, name, Pending(s, i), Pending(s, i + 1));
    } else {
      PendingStepFn(s, i);
    }
  }

  class EventEmitter<P> {
    /** `listeners`: event name to its registrations, in registration order. */
    var listeners: map<string, seq<Listener>>
    /** The number of `once` closures created so far. */
    var onceCount: nat
    /** Every invocation of a caller's function so far, in order. */
    var calls: seq<Call<P>>

    ghost predicate Valid()
      reads this
    {
      WellFormed(listeners, onceCount)
    }

    constructor ()
      ensures Valid()
      ensures listeners == map[] && onceCount == 0 && calls == []
    {
      listeners := map[];
      onceCount := 0;
      calls := [];
    }

    /**
     * `listenerCount(name)`: the length of the name's list, which is zero exactly
     * when the name has no entry.
     */
    function ListenerCount(name: string): (n: nat)
      reads this
      requires Valid()
      ensures n == 0 <==> name !in listeners
      ensures name in listeners ==> n == |listeners[name]|
    {
      if name in listeners then |listeners[name]| else 0
    }

    /** `on(name, fn)`: appends `fn` to the name's list and returns the function that removes it. */
    method On(name: string, id: nat) returns (remover: Remover)
      requires Valid()
      modifies this
      ensures Valid()
      ensures listeners == old(listeners)[name := Registered(old(listeners), name) + [Fn(id)]]
      ensures onceCount == old(onceCount) && calls == old(calls)
      ensures remover == Remover(name, Fn(id))
    {
      WellFormedAfterAppend(listeners, onceCount, name, Fn(id), onceCount);
      listeners := listeners[name := Registered(listeners, name) + [Fn(id)]];
      remover := Remover(name, Fn(id));
    }

    /**
     * `once(name, callback)`: registers a new closure that, when invoked, first
     * removes itself and then calls `callback`.
     */
    method Once(name: string, callback: nat)
      requires Valid()
      modifies this
      ensures Valid()
      ensures listeners == old(listeners)[name := Registered(old(listeners), name) + [OnceWrapper(old(onceCount), callback)]]
      ensures onceCount == old(onceCount) + 1 && calls == old(calls)
    {
      var wrapper := OnceWrapper(onceCount, callback);
      WellFormedAfterAppend(listeners, onceCount, name, wrapper, onceCount + 1);
      listeners := listeners[name := Registered(listeners, name) + [wrapper]];
      onceCount := onceCount + 1;
    }

    /**
     * `off(name, l)`: keeps the registrations other than `l`, in order, and
     * deletes the name once its list is empty. For a name with no entry the
     * source throws (it filters `undefined`) before changing anything.
     */
    method Off(name: string, l: Listener) returns (thrown: bool)
      requires Valid()
      modifies this
      ensures Valid()
      ensures thrown == (name !in old(listeners))
      ensures !thrown ==> listeners == Assign(old(listeners), name, Without(old(listeners)[name], l))
      ensures thrown ==> listeners == old(listeners)
      ensures onceCount == old(onceCount) && calls == old(calls)
    {
      if name !in listeners {
        return true;
      }
      thrown := false;
      var kept := Without(listeners[name], l);
      ghost var after := Assign(listeners, name, kept);
      WellFormedAfterOff(listeners, onceCount, name, l);
      listeners := listeners[name := kept];
      if |kept| == 0 {
        listeners := listeners - {name};
      }
      assert listeners == after;
    }

    /** Calling the function `on` returned: the same as `off` with its name and listener. */
    method Remove(remover: Remover) returns (thrown: bool)
      requires Valid()
      modifies this
      ensures Valid()
      ensures thrown == (remover.name !in old(listeners))
      ensures !thrown ==> listeners == Assign(old(listeners), remover.name, Without(old(listeners)[remover.name], remover.listener))
      ensures thrown ==> listeners == old(listeners)
      ensures onceCount == old(onceCount) && calls == old(calls)
    {
      thrown := Off(remover.name, remover.listener);
    }

    /**
     * One listener invocation within `emit`: a `once` closure first calls
     * `off(name, closure)`, which here cannot throw since the closure is still
     * registered, and then the caller's callback.
     */
    method Invoke(name: string, l: Listener, payload: P)
      requires Valid()
      requires l.OnceWrapper? ==> name in listeners && l in listeners[name]
      modifies this
      ensures Valid()
      ensures calls == old(calls) + [Call(Target(l), payload)]
      ensures onceCount == old(onceCount)
      ensures l.OnceWrapper? ==> listeners == Assign(old(listeners), name, Without(old(listeners)[name], l))
      ensures l.Fn? ==> listeners == old(listeners)
    {
      match l {
        case OnceWrapper(_, callback) =>
          var thrown := Off(name, l);
          assert !thrown;
          calls := calls + [Call(callback, payload)];
        case Fn(id) =>
          calls := calls + [Call(id, payload)];
      }
    }

    /**
     * `emit(name, payload)`: a name with no entry has no effect. Otherwise every
     * listener of the list as it was when `emit` began is invoked once, in
     * registration order; a `once` closure removes itself first, and since `off`
     * builds a new list this does not skip the listeners after it. Afterwards the
     * fired `once` closures are gone and the name is deleted if nothing is left.
     */
    method Emit(name: string, payload: P)
      requires Valid()
      modifies this
      ensures Valid()
      ensures name !in old(listeners) ==> listeners == old(listeners) && calls == old(calls)
      ensures name in old(listeners) ==>
        && calls == old(calls) + CallsOf(old(listeners)[name], payload)
        && listeners == Assign(old(listeners), name, WithoutOnce(old(listeners)[name]))
      ensures name in listeners ==> forall l :: l in listeners[name] ==> l.Fn?
      ensures onceCount == old(onceCount)
    {
      if name !in listeners {
        return;
      }
      var snapshot := listeners[name];
      ghost var before := listeners;
      assert listeners == Assign(before, name, Pending(snapshot, 0)) && OnceUnique(snapshot) by {
        assert Pending(snapshot, 0) == snapshot;
      }
      for i := 0 to |snapshot|
        invariant Valid()
        invariant onceCount == old(onceCount)
        invariant calls == old(calls) + CallsOf(snapshot[..i], payload)
        invariant listeners == Assign(before, name, Pending(snapshot, i))
      {
        var l := snapshot[i];
        ghost var next := Assign(before, name, Pending(snapshot, i + 1));
        assert name in listeners && l in listeners[name]
            && (l.OnceWrapper? ==> Assign(listeners, name, Without(listeners[name], l)) == next)
            && (l.Fn? ==> listeners == next) by {
          EmitStep(before, name, snapshot, i);
        }
        assert calls + [Call(Target(l), payload)] == old(calls) + CallsOf(snapshot[..i + 1], payload) by {
          CallsOfSnoc(old(calls), snapshot, i, payload);
        }
        Invoke(name, l, payload);
      }
      assert calls == old(calls) + CallsOf(snapshot, payload) by {
        assert snapshot[..|snapshot|] == snapshot;
      }
      assert listeners == Assign(before, name, WithoutOnce(snapshot)) by {
        assert snapshot[..|snapshot|] == snapshot;
        assert Pending(snapshot, |snapshot|) == WithoutOnce(snapshot);
      }
      assert forall l :: l in WithoutOnce(snapshot) ==> l.Fn? by {
        WithoutOnceHasNoWrapper(snapshot);
      }
    }
  }
}
