/**
 * The body registry kept by `Globals`: an ordered list of bodies without
 * duplicates, an "objects changed" notification raised when a new body is
 * registered, removal, and access to the live list.
 *
 * The registry is generic in the element type so that the body class can
 * import it; in the simulation it holds `GvObject` references. The static
 * list and event of the source become one `Registry` instance, and the
 * event becomes a counter of how many times it has been raised.
 */
module Globals {

  predicate NoDuplicates<T(==)>(s: seq<T>) {
    forall i, j :: 0 <= i < j < |s| ==> s[i] != s[j]
  }

  /** `if (!list.Contains(x)) list.Add(x)` on the list's contents. */
  function AddIfAbsent<T(==)>(s: seq<T>, x: T): (r: seq<T>)
    ensures x in r
    ensures x in s ==> r == s
    ensures x !in s ==> |r| == |s| + 1 && r[..|s|] == s && r[|s|] == x
    ensures NoDuplicates(s) ==> NoDuplicates(r)
  {
    if x in s then s else s + [x]
  }

  /** Adding the same element twice has the effect of adding it once. */
  lemma AddIfAbsentIdempotent<T>(s: seq<T>, x: T)
    ensures AddIfAbsent(AddIfAbsent(s, x), x) == AddIfAbsent(s, x)
  {
  }

  /** The index of the first occurrence of `x` in `s`. */
  function IndexOf<T(==)>(s: seq<T>, x: T): (i: nat)
    requires x in s
    ensures i < |s| && s[i] == x && x !in s[..i]
  {
    if s[0] == x then 0 else 1 + IndexOf(s[1..], x)
  }

  /**
   * `List.Remove(x)`: finds the first occurrence of `x` and, if there is
   * one, drops it.
   */
  function Removed<T(==)>(s: seq<T>, x: T): (r: seq<T>)
    ensures x !in s ==> r == s
    ensures x in s ==> |r| == |s| - 1
  {
    if x in s then
      var i := IndexOf(s, x);
      s[..i] + s[i + 1..]
    else s
  }

  /**
   * Removal keeps the other elements in their order: everything before the
   * first occurrence of `x` stays in place and everything after it moves
   * down by one.
   */
  lemma RemovedKeepsOrder<T>(s: seq<T>, x: T)
    requires x in s
    ensures forall k :: 0 <= k < IndexOf(s, x) ==> Removed(s, x)[k] == s[k]
    ensures forall k :: IndexOf(s, x) <= k < |Removed(s, x)| ==> Removed(s, x)[k] == s[k + 1]
  {
    DropAt(s, IndexOf(s, x), Removed(s, x));
  }

  /**
   * In a list without duplicates, removal deletes exactly `x`: the result
   * has no duplicates and holds every other element.
   */
  lemma RemovedMembers<T>(s: seq<T>, x: T)
    requires NoDuplicates(s)
    ensures NoDuplicates(Removed(s, x))
    ensures forall y :: y in Removed(s, x) <==> y in s && y != x
  {
    if x in s {
      DropUnique(s, IndexOf(s, x), Removed(s, x));
    }
  }

  /** Dropping the element at `i` from a list without duplicates. */
  lemma DropUnique<T>(s: seq<T>, i: nat, r: seq<T>)
    requires NoDuplicates(s) && i < |s| && r == s[..i] + s[i + 1..]
    ensures NoDuplicates(r)
    ensures forall y :: y in r <==> y in s && y != s[i]
  {
    DropAt(s, i, r);
    forall a, b | 0 <= a < b < |r| ensures r[a] != r[b] {
      assert r[a] == s[if a < i then a else a + 1];
      assert r[b] == s[if b < i then b else b + 1];
    }
    forall y ensures y in r <==> y in s && y != s[i] {
      if y in r {
        var k :| 0 <= k < |r| && r[k] == y;
        assert s[if k < i then k else k + 1] == y;
      }
      if y in s && y != s[i] {
        var k :| 0 <= k < |s| && s[k] == y;
        assert r[if k < i then k else k - 1] == y;
      }
    }
  }

  /** Position arithmetic for the list with the element at `i` dropped. */
  lemma DropAt<T>(s: seq<T>, i: nat, r: seq<T>)
    requires i < |s| && r == s[..i] + s[i + 1..]
    ensures |r| == |s| - 1
    ensures forall a :: 0 <= a < i ==> r[a] == s[a]
    ensures forall a :: i <= a < |r| ==> r[a] == s[a + 1]
  {
  }

  /** The changes the registry accepts. */
  datatype Change<T> = Register(item: T) | Unregister(item: T)

  function Apply<T(==)>(s: seq<T>, c: Change<T>): seq<T> {
    match c
    case Register(x) => AddIfAbsent(s, x)
    case Unregister(x) => Removed(s, x)
  }

  /** The contents after replaying `changes`, oldest first, from `s`. */
  function Replay<T(==)>(s: seq<T>, changes: seq<Change<T>>): seq<T>
    decreases |changes|
  {
    if changes == [] then s else Replay(Apply(s, changes[0]), changes[1..])
  }

  /**
   * Starting from the empty list and changing it only by registering and
   * unregistering, the registry never holds a body twice.
   */
  lemma {:induction false} ReplayNoDuplicates<T>(s: seq<T>, changes: seq<Change<T>>)
    requires NoDuplicates(s)
    ensures NoDuplicates(Replay(s, changes))
    decreases |changes|
  {
    if changes != [] {
      if changes[0].Unregister? {
        RemovedMembers(s, changes[0].item);
      }
      ReplayNoDuplicates(Apply(s, changes[0]), changes[1..]);
    }
  }

  /** The mutable `List<GvObject>` instance that the registry hands out. */
  class LiveList<T> {
    var items: seq<T>

    constructor ()
      ensures items == []
    {
      items := [];
    }
  }

  class Registry<T(==)> {
    /** `_gvObjects`: one list object for the registry's whole life. */
    const gvObjects: LiveList<T>
    /** How many times `ObjectsChanged` has been raised. */
    var notifications: nat

    ghost predicate Valid()
      reads this, gvObjects
    {
      NoDuplicates(gvObjects.items)
    }

    constructor ()
      ensures Valid() && fresh(gvObjects)
      ensures gvObjects.items == [] && notifications == 0
    {
      gvObjects := new LiveList();
      notifications := 0;
    }

    /** Registers `x` unless present; notifies exactly when it was absent. */
    method AddGvObject(x: T)
      requires Valid()
      modifies this`notifications, gvObjects
      ensures Valid()
      ensures gvObjects.items == AddIfAbsent(old(gvObjects.items), x)
      ensures notifications == old(notifications) + if x in old(gvObjects.items) then 0 else 1
    {
      if x !in gvObjects.items {
        gvObjects.items := gvObjects.items + [x];
        notifications := notifications + 1;
      }
    }

    /** Unregisters `x` if present; never notifies. */
    method RmGvObject(x: T)
      requires Valid()
      modifies gvObjects
      ensures Valid()
      ensures gvObjects.items == Removed(old(gvObjects.items), x)
      ensures notifications == old(notifications)
    {
      RemovedMembers(gvObjects.items, x);
      gvObjects.items := Removed(gvObjects.items, x);
    }

    /** Hands out the live list itself, not a copy. */
    method GetAllGvObjects() returns (list: LiveList<T>)
      ensures list == gvObjects
    {
      list := gvObjects;
    }
  }

  /**
   * A holder of the list returned by `GetAllGvObjects` sees a body that is
   * registered afterwards.
   */
  method HolderSeesLaterRegistration<T(==)>(registry: Registry<T>, x: T) returns (list: LiveList<T>)
    requires registry.Valid()
    modifies registry, registry.gvObjects
    ensures registry.Valid()
    ensures x in list.items && list.items == registry.gvObjects.items
  {
    list := registry.GetAllGvObjects();
    registry.AddGvObject(x);
  }
}
