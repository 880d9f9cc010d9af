/** The world registry (models/world.py): a dictionary from object name to
    object. Python dictionaries remember insertion order, so the state is the
    dictionary together with the order in which its keys were first inserted. */
module Worlds {
  import opened Wrappers
  import opened Objects

  predicate NoDuplicateNames(order: seq<string>)
  {
    forall i, j :: 0 <= i < j < |order| ==> order[i] != order[j]
  }

  /** The key order of a Python dict after `d[name] = ...`: a new key goes to
      the end, an existing key keeps its place. */
  function InsertionOrder(order: seq<string>, name: string): seq<string>
  {
    if name in order then order else order + [name]
  }

  /** Inserting keeps the keys distinct, adds exactly the new name, and moves no
      key that was already there. */
  lemma InsertionOrderProperties(order: seq<string>, name: string)
    requires NoDuplicateNames(order)
    ensures var r := InsertionOrder(order, name);
      && NoDuplicateNames(r)
      && (forall n :: n in r <==> n in order || n == name)
      && |r| == (if name in order then |order| else |order| + 1)
      && r[..|order|] == order
  {
  }

  /** The error `__getitem__` raises for a name that was never added. */
  datatype LookupError = KeyError(name: string)

  class World {
    var objects: map<string, Object>
    var order: seq<string>

    /** The keys of the dictionary, each once, in insertion order. */
    ghost predicate Valid()
      reads this
    {
      && NoDuplicateNames(order)
      && (forall n :: n in order <==> n in objects)
      && forall n :: n in objects ==> objects[n].name == n
    }

    /** World(): an empty registry. */
    constructor ()
      ensures Valid() && objects == map[] && order == []
    {
      objects := map[];
      order := [];
    }

    /** world[name]: the object stored under name, or KeyError. */
    function Get(name: string): (r: Result<Object, LookupError>)
      reads this
      ensures r.Success? <==> name in objects
      ensures r.Success? ==> r.value == objects[name]
      ensures r.Failure? ==> r.error == KeyError(name)
      ensures Valid() && r.Success? ==> r.value.name == name
    {
      if name in objects then Success(objects[name]) else Failure(KeyError(name))
    }

    /** world.objects: the stored objects in key-insertion order. */
    function Objects(): (r: seq<Object>)
      reads this
      requires Valid()
      ensures |r| == |order| == |objects|
      ensures forall i :: 0 <= i < |order| ==> r[i] == objects[order[i]]
      ensures forall n :: n in objects ==> objects[n] in r
    {
      NamesCount(order, objects.Keys);
      var keys, entries := order, objects;
      seq(|keys|, i requires 0 <= i < |keys| && keys[i] in entries => entries[keys[i]])
    }

    /** add_object(obj): stores obj under its own name. An existing entry with
        that name is silently replaced and keeps its position; every other
        entry stays as it was. */
    method AddObject(obj: Object)
      requires Valid()
      modifies this
      ensures Valid()
      ensures objects == old(objects)[obj.name := obj]
      ensures order == InsertionOrder(old(order), obj.name)
      ensures Get(obj.name) == Success(obj)
      ensures forall n :: n != obj.name ==> Get(n) == old(Get(n))
      ensures |objects| == if obj.name in old(objects) then old(|objects|) else old(|objects|) + 1
    {
      InsertionOrderProperties(order, obj.name);
      objects := objects[obj.name := obj];
      order := InsertionOrder(order, obj.name);
    }
  }

  lemma SomeName(names: set<string>) returns (n: string)
    requires names != {}
    ensures n in names
  {
    n :| n in names;
  }

  /** A duplicate-free sequence of names lists a set exactly when it has as many
      entries as the set has members. */
  lemma {:induction false} NamesCount(order: seq<string>, names: set<string>)
    requires NoDuplicateNames(order)
    requires forall n :: n in order <==> n in names
    ensures |order| == |names|
  {
    if order != [] {
      var last := order[|order| - 1];
      var init := order[..|order| - 1];
      forall n ensures n in init <==> n in names - {last} {
        if n in init {
          var i :| 0 <= i < |init| && init[i] == n;
          assert order[i] == n;
        }
        if n in names - {last} {
          assert n in order;
          var i :| 0 <= i < |order| && order[i] == n;
          assert i != |order| - 1;
          assert init[i] == n;
        }
      }
      NamesCount(init, names - {last});
    } else {
      if names != {} {
        var n := SomeName(names);
        assert false;
      }
    }
  }
}
