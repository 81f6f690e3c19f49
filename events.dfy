/** The event registry of src/tools/eventEmitter.js: a list of records, one per
    event name, each holding the callbacks subscribed to that name in subscription
    order. Callbacks are opaque values compared by identity (`indexOf`); what a
    callback does when triggered is outside the model, so `trigger` is described by
    the callbacks it invokes, in order. */
module EventRegistry {
  import opened Js

  /** `{ name, callbacks }`. */
  datatype Record<C> = Record(name: string, callbacks: seq<C>)

  /** `this.callbacks.find(info => info.name === eventName)`, as an index. */
  function FindRecord<C>(rs: seq<Record<C>>, name: string): (r: Option<nat>)
    ensures r.Some? ==> r.value < |rs| && rs[r.value].name == name
    ensures r.Some? ==> forall j :: 0 <= j < r.value ==> rs[j].name != name
    ensures r.None? <==> forall j :: 0 <= j < |rs| ==> rs[j].name != name
  {
    if rs == [] then None
    else if rs[0].name == name then Some(0)
    else
      var r := FindRecord(rs[1..], name);
      assert forall j :: 1 <= j < |rs| ==> rs[j] == rs[1..][j - 1];
      if r.None? then None else Some(r.value + 1)
  }

  /** The callbacks the registry holds for a name: those of its record, or none. */
  function Lookup<C>(rs: seq<Record<C>>, name: string): seq<C>
  {
    match FindRecord(rs, name)
    case None => []
    case Some(i) => rs[i].callbacks
  }

  /** At most one record per name. */
  predicate UniqueNames<C>(rs: seq<Record<C>>)
  {
    forall i, j :: 0 <= i < j < |rs| ==> rs[i].name != rs[j].name
  }

  /** No record with an empty callback list. */
  predicate NoEmptyRecord<C>(rs: seq<Record<C>>)
  {
    forall i :: 0 <= i < |rs| ==> |rs[i].callbacks| > 0
  }

  /** `Array.prototype.indexOf`: the first position of x, or -1. */
  function IndexOf<C(==)>(s: seq<C>, x: C): (i: int)
    ensures -1 <= i < |s|
    ensures i >= 0 ==> s[i] == x && x !in s[..i]
    ensures i < 0 <==> x !in s
  {
    if s == [] then -1
    else if s[0] == x then 0
    else
      var i := IndexOf(s[1..], x);
      assert s == [s[0]] + s[1..];
      if i < 0 then -1
      else
        assert s[..i + 1] == [s[0]] + s[1..][..i];
        i + 1
  }

  /** `index > -1 && list.splice(index, 1)` on the first occurrence. */
  function RemoveFirst<C(==)>(s: seq<C>, x: C): seq<C>
  {
    var i := IndexOf(s, x);
    if i < 0 then s else s[..i] + s[i + 1..]
  }

  /** Removing a present callback drops exactly one of its occurrences and keeps
      the others in order; removing an absent one changes nothing. */
  lemma RemoveFirstMeaning<C>(s: seq<C>, x: C)
    ensures x !in s ==> RemoveFirst(s, x) == s
    ensures x in s ==> (|RemoveFirst(s, x)| == |s| - 1
      && multiset(RemoveFirst(s, x)) == multiset(s) - multiset{x})
    ensures x in s ==> (var i := IndexOf(s, x);
      RemoveFirst(s, x)[..i] == s[..i] && x !in s[..i] && RemoveFirst(s, x)[i..] == s[i + 1..])
  {
    var i := IndexOf(s, x);
    if i >= 0 {
      var r := RemoveFirst(s, x);
      var pre, post := s[..i], s[i + 1..];
      assert r == pre + post;
      assert s == pre + [x] + post;
      assert multiset(s) == multiset(pre) + multiset{x} + multiset(post);
      assert multiset(r) == multiset(pre) + multiset(post);
      assert r[..i] == pre;
      assert r[i..] == post;
    }
  }

  /** After replacing record i by one with the same name, the lookup of that name
      gives the new list and every other name's lookup is unchanged. */
  lemma LookupAfterUpdate<C>(rs: seq<Record<C>>, i: nat, cbs: seq<C>)
    requires UniqueNames(rs) && i < |rs|
    ensures var rs' := rs[i := Record(rs[i].name, cbs)];
      && UniqueNames(rs')
      && FindRecord(rs', rs[i].name) == Some(i)
      && Lookup(rs', rs[i].name) == cbs
      && forall n :: n != rs[i].name ==> Lookup(rs', n) == Lookup(rs, n)
  {
    var rs' := rs[i := Record(rs[i].name, cbs)];
    assert forall j :: 0 <= j < |rs| ==> rs'[j].name == rs[j].name;
    forall n | n != rs[i].name ensures Lookup(rs', n) == Lookup(rs, n) {
      FindSameNames(rs, rs', n);
    }
    assert FindRecord(rs', rs[i].name) == Some(i) by {
      assert rs'[i].name == rs[i].name;
      var f := FindRecord(rs', rs[i].name);
      assert f.Some?;
    }
  }

  /** Two record lists with the same names find a name at the same index, as long
      as the records at that index coincide. */
  lemma FindSameNames<C>(rs: seq<Record<C>>, rs': seq<Record<C>>, n: string)
    requires |rs| == |rs'| && forall j :: 0 <= j < |rs| ==> rs[j].name == rs'[j].name
    requires forall j :: 0 <= j < |rs| && rs[j] != rs'[j] ==> rs[j].name != n
    ensures FindRecord(rs, n) == FindRecord(rs', n) && Lookup(rs, n) == Lookup(rs', n)
  {
  }

  /** Deleting record i leaves every other name's lookup unchanged and the deleted
      name without callbacks. */
  lemma LookupAfterDelete<C>(rs: seq<Record<C>>, i: nat)
    requires UniqueNames(rs) && i < |rs|
    ensures var rs' := rs[..i] + rs[i + 1..];
      && UniqueNames(rs')
      && Lookup(rs', rs[i].name) == []
      && forall n :: n != rs[i].name ==> Lookup(rs', n) == Lookup(rs, n)
  {
    var rs' := rs[..i] + rs[i + 1..];
    assert forall j :: 0 <= j < i ==> rs'[j] == rs[j];
    assert forall j :: i <= j < |rs'| ==> rs'[j] == rs[j + 1];
    forall n | n != rs[i].name ensures Lookup(rs', n) == Lookup(rs, n) {
      var f, f' := FindRecord(rs, n), FindRecord(rs', n);
      if f.Some? {
        if f.value < i {
          assert rs'[f.value].name == n;
        } else {
          assert rs'[f.value - 1].name == n;
        }
      }
      if f'.Some? {
        if f'.value < i {
          assert rs[f'.value].name == n;
        } else {
          assert rs[f'.value + 1].name == n;
        }
      }
    }
    assert FindRecord(rs', rs[i].name).None?;
  }

  /** Appending a record under a new name: it is found there, and nothing else moves. */
  lemma LookupAfterAppend<C>(rs: seq<Record<C>>, r: Record<C>)
    requires UniqueNames(rs) && FindRecord(rs, r.name).None?
    ensures var rs' := rs + [r];
      && UniqueNames(rs')
      && Lookup(rs', r.name) == r.callbacks
      && forall n :: n != r.name ==> Lookup(rs', n) == Lookup(rs, n)
  {
    var rs' := rs + [r];
    assert forall j :: 0 <= j < |rs| ==> rs'[j] == rs[j];
    forall n | n != r.name ensures Lookup(rs', n) == Lookup(rs, n) {
      var f, f' := FindRecord(rs, n), FindRecord(rs', n);
      if f.Some? {
        assert rs'[f.value].name == n;
      }
      if f'.Some? && f'.value < |rs| {
        assert rs[f'.value].name == n;
      }
    }
    assert FindRecord(rs', r.name) == Some(|rs|) by {
      assert rs'[|rs|].name == r.name;
    }
  }

  /** The records after `subscribe(name, cb)`: cb joins the end of the name's list,
      or a new record for the name joins the end of the registry. */
  function Subscribed<C>(rs: seq<Record<C>>, name: string, cb: C): seq<Record<C>>
  {
    match FindRecord(rs, name)
    case None => rs + [Record(name, [cb])]
    case Some(i) => rs[i := Record(name, rs[i].callbacks + [cb])]
  }

  /** Subscribing keeps the registry valid, appends cb to the name's callbacks,
      duplicates included, and leaves every other name alone; only a new name adds
      a record. */
  lemma SubscribedMeaning<C>(rs: seq<Record<C>>, name: string, cb: C)
    requires UniqueNames(rs) && NoEmptyRecord(rs)
    ensures var rs' := Subscribed(rs, name, cb);
      && UniqueNames(rs') && NoEmptyRecord(rs')
      && Lookup(rs', name) == Lookup(rs, name) + [cb]
      && (forall n :: n != name ==> Lookup(rs', n) == Lookup(rs, n))
      && (|rs'| == |rs| + 1 <==> FindRecord(rs, name).None?)
  {
    var f := FindRecord(rs, name);
    if f.Some? {
      LookupAfterUpdate(rs, f.value, rs[f.value].callbacks + [cb]);
    } else {
      LookupAfterAppend(rs, Record(name, [cb]));
    }
  }

  /** The records after `unSubscribe(name, cb)`: the first occurrence of cb leaves
      the name's list, and a list left empty takes its record with it. */
  function Unsubscribed<C(==)>(rs: seq<Record<C>>, name: string, cb: C): seq<Record<C>>
  {
    match FindRecord(rs, name)
    case None => rs
    case Some(i) =>
      var list := RemoveFirst(rs[i].callbacks, cb);
      if |list| == 0 then rs[..i] + rs[i + 1..] else rs[i := Record(name, list)]
  }

  /** Unsubscribing keeps the registry valid, removes one occurrence of cb from the
      name's callbacks and from nowhere else, changes nothing when cb is not
      subscribed, and drops the record exactly when cb was its only callback. */
  lemma UnsubscribedMeaning<C>(rs: seq<Record<C>>, name: string, cb: C)
    requires UniqueNames(rs) && NoEmptyRecord(rs)
    ensures var rs' := Unsubscribed(rs, name, cb);
      && UniqueNames(rs') && NoEmptyRecord(rs')
      && Lookup(rs', name) == RemoveFirst(Lookup(rs, name), cb)
      && (forall n :: n != name ==> Lookup(rs', n) == Lookup(rs, n))
      && (cb !in Lookup(rs, name) ==> rs' == rs)
      && (FindRecord(rs', name).None? <==> Lookup(rs, name) in {[], [cb]})
  {
    var f := FindRecord(rs, name);
    if f.Some? {
      var i := f.value;
      RemoveFirstMeaning(rs[i].callbacks, cb);
      if |RemoveFirst(rs[i].callbacks, cb)| == 0 {
        UnsubscribeLast(rs, i, cb);
      } else {
        LookupAfterUpdate(rs, i, RemoveFirst(rs[i].callbacks, cb));
        assert Lookup(rs, name) != [cb];
      }
    }
  }

  /** Removing the only callback of record i deletes the record. */
  lemma UnsubscribeLast<C>(rs: seq<Record<C>>, i: nat, cb: C)
    requires UniqueNames(rs) && NoEmptyRecord(rs) && i < |rs|
    requires |RemoveFirst(rs[i].callbacks, cb)| == 0
    ensures rs[i].callbacks == [cb]
    ensures var rs' := rs[..i] + rs[i + 1..];
      && UniqueNames(rs') && NoEmptyRecord(rs')
      && FindRecord(rs', rs[i].name).None?
      && forall n :: n != rs[i].name ==> Lookup(rs', n) == Lookup(rs, n)
  {
    RemoveFirstMeaning(rs[i].callbacks, cb);
    LookupAfterDelete(rs, i);
    var rs' := rs[..i] + rs[i + 1..];
    assert forall j :: 0 <= j < |rs'| ==> rs'[j] == rs[if j < i then j else j + 1];
  }

  /** The index of the first callback `trigger` cannot call (`null` or not a
      function), or the length of the list. */
  function FirstUncallable<C>(cbs: seq<C>, isFunction: C -> bool): (k: nat)
    ensures k <= |cbs|
    ensures forall j :: 0 <= j < k ==> isFunction(cbs[j])
    ensures k < |cbs| ==> !isFunction(cbs[k])
  {
    if cbs == [] then 0
    else if !isFunction(cbs[0]) then 0
    else 1 + FirstUncallable(cbs[1..], isFunction)
  }

  class EventEmitter<C(==)> {
    var callbacks: seq<Record<C>>

    /** At most one record per name, and no record without callbacks. */
    predicate Valid()
      reads this
    {
      UniqueNames(callbacks) && NoEmptyRecord(callbacks)
    }

    constructor()
      ensures callbacks == [] && Valid()
    {
      callbacks := [];
    }

    /** `subscribe(eventName, callback)`: appends the callback to the name's list,
        creating the record at the end when the name is new; duplicates are kept. */
    method Subscribe(name: string, cb: C)
      requires Valid()
      modifies this
      ensures callbacks == Subscribed(old(callbacks), name, cb)
      ensures Valid()
      ensures Lookup(callbacks, name) == Lookup(old(callbacks), name) + [cb]
      ensures forall n :: n != name ==> Lookup(callbacks, n) == Lookup(old(callbacks), n)
    {
      SubscribedMeaning(callbacks, name, cb);
      var found := FindRecord(callbacks, name);
      if found.Some? {
        var i := found.value;
        callbacks := callbacks[i := Record(name, callbacks[i].callbacks + [cb])];
      } else {
        callbacks := callbacks + [Record(name, [cb])];
      }
    }

    /** `unSubscribe(eventName, callback)`: removes the first occurrence of the
        callback from the name's list and deletes the record once its list is
        empty; an unknown name or callback changes nothing. */
    method UnSubscribe(name: string, cb: C)
      requires Valid()
      modifies this
      ensures callbacks == Unsubscribed(old(callbacks), name, cb)
      ensures Valid()
      ensures Lookup(callbacks, name) == RemoveFirst(Lookup(old(callbacks), name), cb)
      ensures forall n :: n != name ==> Lookup(callbacks, n) == Lookup(old(callbacks), n)
      ensures cb !in Lookup(old(callbacks), name) ==> callbacks == old(callbacks)
      ensures FindRecord(callbacks, name).None? <==> Lookup(old(callbacks), name) in {[], [cb]}
    {
      UnsubscribedMeaning(callbacks, name, cb);
      var found := FindRecord(callbacks, name);
      if found.None? {
        return;
      }
      var i := found.value;
      var list := callbacks[i].callbacks;
      var index := IndexOf(list, cb);
      if index > -1 {
        list := list[..index] + list[index + 1..];
      }
      if |list| == 0 {
        callbacks := callbacks[..i] + callbacks[i + 1..];
      } else if index > -1 {
        callbacks := callbacks[i := Record(name, list)];
      }
    }

    /** `hasSubscribers(eventName)`: whether the name has a record, which in a
        valid registry is whether it has at least one callback. */
    method HasSubscribers(name: string) returns (b: bool)
      requires Valid()
      ensures b <==> |Lookup(callbacks, name)| > 0
    {
      var found := FindRecord(callbacks, name);
      b := found.Some?;
    }

    /** `trigger(eventName, ...e)`: the name's callbacks invoked in list order; an
        unknown name invokes nothing. Calling an entry that is not a function throws
        and ends the loop there. */
    method Trigger(name: string, isFunction: C -> bool) returns (calls: seq<C>, r: Result<()>)
      ensures var cbs := Lookup(callbacks, name);
        && calls == cbs[..FirstUncallable(cbs, isFunction)]
        && (r.Err? <==> FirstUncallable(cbs, isFunction) < |cbs|)
    {
      calls := [];
      var found := FindRecord(callbacks, name);
      if found.None? {
        return calls, Ok(());
      }
      var cbs := callbacks[found.value].callbacks;
      for k := 0 to |cbs|
        invariant k <= FirstUncallable(cbs, isFunction)
        invariant calls == cbs[..k]
      {
        if !isFunction(cbs[k]) {
          return calls, Err("callback is not a function");
        }
        calls := calls + [cbs[k]];
      }
      return calls, Ok(());
    }
  }
}
