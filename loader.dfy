/** The decode-filter-sort part of `load_boot_environments`: the reply of the object manager's
    `GetManagedObjects` call is given as a sequence in whatever order the service's hash map
    yields it. */
module Loader {
  import opened Wrappers
  import opened Records
  import opened Ordering

  /** The interface each boot-environment object implements. */
  const BootEnvironmentInterface: string := "ca.kamacite.BootEnvironment"

  /** One entry of the managed-objects reply: a path and its interfaces' property dictionaries. */
  datatype ManagedObject = ManagedObject(path: ObjectPath, interfaces: map<string, PropertyMap>)

  predicate IsBootEnvironment(o: ManagedObject) {
    BootEnvironmentInterface in o.interfaces
  }

  function Decode(o: ManagedObject): Result<BootEnvironment, DecodeError>
    requires IsBootEnvironment(o)
  {
    FromProperties(o.path, o.interfaces[BootEnvironmentInterface])
  }

  /** The objects that expose the boot-environment interface, in reply order. */
  function BootEnvironmentObjects(objects: seq<ManagedObject>): (r: seq<ManagedObject>)
    ensures |r| <= |objects|
    ensures forall i :: 0 <= i < |r| ==> IsBootEnvironment(r[i])
  {
    if objects == [] then []
    else if IsBootEnvironment(objects[0]) then [objects[0]] + BootEnvironmentObjects(objects[1..])
    else BootEnvironmentObjects(objects[1..])
  }

  /** Decodes every boot-environment object in reply order, stopping at the first failure. */
  function DecodeAll(objects: seq<ManagedObject>): (r: Result<seq<BootEnvironment>, DecodeError>)
    ensures r.Ok? ==> |r.value| == |BootEnvironmentObjects(objects)|
  {
    if objects == [] then Ok([])
    else if !IsBootEnvironment(objects[0]) then DecodeAll(objects[1..])
    else
      var env :- Decode(objects[0]);
      var rest :- DecodeAll(objects[1..]);
      Ok([env] + rest)
  }

  /** What a load returns once the reply has arrived: all or nothing, and on success the decoded
      records sorted ascending by creation time. */
  function Load(objects: seq<ManagedObject>): (r: Result<seq<BootEnvironment>, DecodeError>)
    ensures r.Ok? <==> DecodeAll(objects).Ok?
    ensures r.Ok? ==>
      && SortedByCreated(r.value)
      && multiset(r.value) == multiset(DecodeAll(objects).value)
      && |r.value| == |BootEnvironmentObjects(objects)|
  {
    match DecodeAll(objects)
    case Ok(environments) =>
      SortByCreatedCorrect(environments);
      Ok(SortByCreated(environments))
    case Err(e) => Err(e)
  }

  /** The loop of `load_boot_environments`: push each decoded boot environment, return the first
      decode error at once, then sort by creation time. */
  method LoadBootEnvironments(objects: seq<ManagedObject>) returns (r: Result<seq<BootEnvironment>, DecodeError>)
    ensures r == Load(objects)
  {
    var environments: seq<BootEnvironment> := [];
    for i := 0 to |objects|
      invariant DecodeAll(objects[..i]) == Ok(environments)
    {
      var o := objects[i];
      assert objects[..i + 1] == objects[..i] + [o];
      DecodeAllAppend(objects[..i], [o]);
      assert [o][1..] == [];
      if BootEnvironmentInterface in o.interfaces {
        var env := FromProperties(o.path, o.interfaces[BootEnvironmentInterface]);
        if env.Err? {
          assert objects == objects[..i + 1] + objects[i + 1..];
          DecodeAllAppend(objects[..i + 1], objects[i + 1..]);
          return Err(env.error);
        }
        assert DecodeAll([o]) == Ok([env.value]) by {
          assert [env.value] + [] == [env.value];
        }
        environments := environments + [env.value];
      } else {
        assert DecodeAll([o]) == Ok([]);
        assert environments + [] == environments;
      }
      assert DecodeAll(objects[..i + 1]) == Ok(environments);
    }
    assert objects[..|objects|] == objects;
    environments := SortByCreated(environments);
    r := Ok(environments);
  }

  /** Decoding a concatenation decodes the first part, then the second. */
  lemma {:induction false} DecodeAllAppend(a: seq<ManagedObject>, b: seq<ManagedObject>)
    ensures DecodeAll(a + b) ==
      match DecodeAll(a)
      case Err(e) => Err(e)
      case Ok(la) =>
        match DecodeAll(b)
        case Err(e) => Err(e)
        case Ok(lb) => Ok(la + lb)
  {
    if a != [] {
      assert (a + b)[1..] == a[1..] + b;
      DecodeAllAppend(a[1..], b);
      if IsBootEnvironment(a[0]) && Decode(a[0]).Ok? {
        match DecodeAll(a[1..])
        case Err(_) =>
        case Ok(la) =>
          match DecodeAll(b)
          case Err(_) =>
          case Ok(lb) =>
            assert [Decode(a[0]).value] + (la + lb) == ([Decode(a[0]).value] + la) + lb;
      }
    } else {
      assert a + b == b;
      match DecodeAll(b)
      case Err(_) =>
      case Ok(lb) => assert [] + lb == lb;
    }
  }

  /** A load fails exactly when some object exposing the interface fails to decode; objects
      without the interface play no part. */
  lemma {:induction false} DecodeAllOkIff(objects: seq<ManagedObject>)
    ensures DecodeAll(objects).Ok? <==>
      forall i :: 0 <= i < |objects| && IsBootEnvironment(objects[i]) ==> Decode(objects[i]).Ok?
  {
    if objects != [] {
      DecodeAllOkIff(objects[1..]);
      assert forall i :: 1 <= i < |objects| ==> objects[i] == objects[1..][i - 1];
      if IsBootEnvironment(objects[0]) && Decode(objects[0]).Err? {
        assert DecodeAll(objects).Err?;
      }
    }
  }

  /** A successful decode yields, index by index, the decoded boot-environment objects. */
  lemma {:induction false} DecodeAllContents(objects: seq<ManagedObject>, environments: seq<BootEnvironment>)
    requires DecodeAll(objects) == Ok(environments)
    ensures |environments| == |BootEnvironmentObjects(objects)|
    ensures forall k :: 0 <= k < |environments| ==>
      Decode(BootEnvironmentObjects(objects)[k]) == Ok(environments[k])
  {
    if objects != [] {
      if IsBootEnvironment(objects[0]) {
        var rest := DecodeAll(objects[1..]).value;
        DecodeAllContents(objects[1..], rest);
        assert environments == [Decode(objects[0]).value] + rest;
      } else {
        DecodeAllContents(objects[1..], environments);
      }
    }
  }

  /** Dropping the objects without the interface does not change what is decoded. */
  lemma {:induction false} DecodeAllIgnoresOtherObjects(objects: seq<ManagedObject>)
    ensures DecodeAll(objects) == DecodeAll(BootEnvironmentObjects(objects))
  {
    if objects != [] {
      DecodeAllIgnoresOtherObjects(objects[1..]);
      if IsBootEnvironment(objects[0]) {
        var f := BootEnvironmentObjects(objects);
        assert f[0] == objects[0] && f[1..] == BootEnvironmentObjects(objects[1..]);
      }
    }
  }

  /** A load fails, returning no record at all, exactly when some object exposing the interface
      fails to decode; otherwise record `k` of the decoded list is the decoded `k`-th
      boot-environment object. */
  lemma LoadCorrect(objects: seq<ManagedObject>)
    ensures Load(objects).Ok? <==>
      forall i :: 0 <= i < |objects| && IsBootEnvironment(objects[i]) ==> Decode(objects[i]).Ok?
    ensures Load(objects).Ok? ==> forall k :: 0 <= k < |DecodeAll(objects).value| ==>
      Decode(BootEnvironmentObjects(objects)[k]) == Ok(DecodeAll(objects).value[k])
  {
    DecodeAllOkIff(objects);
    if DecodeAll(objects).Ok? {
      DecodeAllContents(objects, DecodeAll(objects).value);
    }
  }

  /** Keeping the boot-environment objects keeps them in reply order. */
  lemma {:induction false} BootEnvironmentObjectsAppend(a: seq<ManagedObject>, b: seq<ManagedObject>)
    ensures BootEnvironmentObjects(a + b) == BootEnvironmentObjects(a) + BootEnvironmentObjects(b)
  {
    if a == [] {
      assert a + b == b;
    } else {
      assert (a + b)[1..] == a[1..] + b;
      BootEnvironmentObjectsAppend(a[1..], b);
    }
  }

  /** An object is kept exactly when it is in the reply and exposes the interface; a reply of
      boot-environment objects only is kept whole. */
  lemma {:induction false} BootEnvironmentObjectsMembers(objects: seq<ManagedObject>)
    ensures forall o :: o in BootEnvironmentObjects(objects) <==> o in objects && IsBootEnvironment(o)
    ensures (forall i :: 0 <= i < |objects| ==> IsBootEnvironment(objects[i])) ==>
      BootEnvironmentObjects(objects) == objects
  {
    if objects != [] {
      BootEnvironmentObjectsMembers(objects[1..]);
      assert objects == [objects[0]] + objects[1..];
      assert forall o :: o in objects <==> o == objects[0] || o in objects[1..];
      if forall i :: 0 <= i < |objects| ==> IsBootEnvironment(objects[i]) {
        assert forall i :: 0 <= i < |objects[1..]| ==> IsBootEnvironment(objects[1..][i]) by {
          forall i | 0 <= i < |objects[1..]| ensures IsBootEnvironment(objects[1..][i]) {
            assert objects[1..][i] == objects[i + 1];
          }
        }
      }
    }
  }

  /** Two replies decode alike: both fail, or both succeed with the same records in some order. */
  predicate SameDecoding(a: seq<ManagedObject>, b: seq<ManagedObject>) {
    && (DecodeAll(a).Ok? <==> DecodeAll(b).Ok?)
    && (DecodeAll(a).Ok? ==> multiset(DecodeAll(a).value) == multiset(DecodeAll(b).value))
  }

  lemma SameDecodingCons(x: ManagedObject, a: seq<ManagedObject>, b: seq<ManagedObject>)
    requires SameDecoding(a, b)
    ensures SameDecoding([x] + a, [x] + b)
  {
    assert ([x] + a)[0] == x && ([x] + a)[1..] == a;
    assert ([x] + b)[0] == x && ([x] + b)[1..] == b;
  }

  lemma SameDecodingMoveFront(front: seq<ManagedObject>, x: ManagedObject, back: seq<ManagedObject>)
    ensures SameDecoding(front + ([x] + back), [x] + (front + back))
  {
    DecodeAllAppend(front, [x] + back);
    DecodeAllAppend([x], back);
    DecodeAllAppend([x], front + back);
    DecodeAllAppend(front, back);
    if DecodeAll(front).Ok? && DecodeAll([x]).Ok? && DecodeAll(back).Ok? {
      var lf, lx, lb := DecodeAll(front).value, DecodeAll([x]).value, DecodeAll(back).value;
      assert DecodeAll(front + ([x] + back)) == Ok(lf + (lx + lb));
      assert DecodeAll([x] + (front + back)) == Ok(lx + (lf + lb));
      assert multiset(lf + (lx + lb)) == multiset(lx + (lf + lb));
    }
  }

  /** Two replies listing the same objects in different orders decode into the same records,
      possibly in a different order. */
  lemma {:induction false} DecodeAllPermutation(o1: seq<ManagedObject>, o2: seq<ManagedObject>)
    requires multiset(o1) == multiset(o2)
    ensures DecodeAll(o1).Ok? <==> DecodeAll(o2).Ok?
    ensures DecodeAll(o1).Ok? ==> multiset(DecodeAll(o1).value) == multiset(DecodeAll(o2).value)
    decreases |o1|
  {
    if o1 == [] {
      assert |o2| == |multiset(o2)| == 0;
    } else {
      var x := o1[0];
      assert x in multiset(o2);
      var k :| 0 <= k < |o2| && o2[k] == x;
      var front, back := o2[..k], o2[k + 1..];
      assert o2 == front + ([x] + back);
      assert o1 == [x] + o1[1..];
      assert multiset(o1[1..]) == multiset(front + back) by {
        assert multiset(o2) == multiset(front) + multiset([x] + back);
        assert multiset([x] + back) == multiset{x} + multiset(back);
        assert multiset(front + back) == multiset(front) + multiset(back);
        assert multiset(o1[1..]) == multiset(o1) - multiset{x};
        assert multiset(front + back) == multiset(o2) - multiset{x};
        assert multiset(o1) == multiset{x} + multiset(o1[1..]);
      }
      DecodeAllPermutation(o1[1..], front + back);
      SameDecodingCons(x, o1[1..], front + back);
      SameDecodingMoveFront(front, x, back);
    }
  }

  /** Reloading unchanged server state stores the same list, whatever order the reply lists the
      objects in, provided records created at the same time are identical. */
  lemma LoadPermutationInvariant(o1: seq<ManagedObject>, o2: seq<ManagedObject>)
    requires multiset(o1) == multiset(o2)
    requires DecodeAll(o1).Ok? ==> TiesIdentical(DecodeAll(o1).value)
    ensures Load(o1) == Load(o2)
  {
    DecodeAllPermutation(o1, o2);
    if DecodeAll(o1).Ok? {
      var d1, d2 := DecodeAll(o1).value, DecodeAll(o2).value;
      var s1, s2 := SortByCreated(d1), SortByCreated(d2);
      SortByCreatedCorrect(d1);
      SortByCreatedCorrect(d2);
      forall x, y | x in s1 && y in s1 && x.created == y.created ensures x == y {
        assert x in multiset(d1) && y in multiset(d1);
      }
      SortedPermutationsEqual(s1, s2);
      assert Load(o1) == Ok(s1) && Load(o2) == Ok(s2);
    } else {
      assert Load(o1).error.IncorrectType? && Load(o2).error.IncorrectType?;
    }
  }

  /** The object the service publishes for a well-formed record. */
  function Publish(e: BootEnvironment): (o: ManagedObject)
    requires WellFormed(e)
    ensures IsBootEnvironment(o) && Decode(o) == Ok(e)
  {
    RoundTrip(e);
    ManagedObject(e.path, map[BootEnvironmentInterface := ToProperties(e)])
  }

  /** On a tie in creation time the reply order decides: the same two objects listed in the two
      orders load into the two orders, which differ whenever the records do. */
  lemma TieOrderFollowsReply(a: BootEnvironment, b: BootEnvironment)
    requires WellFormed(a) && WellFormed(b) && a.created == b.created
    ensures multiset([Publish(a), Publish(b)]) == multiset([Publish(b), Publish(a)])
    ensures Load([Publish(a), Publish(b)]) == Ok([a, b])
    ensures Load([Publish(b), Publish(a)]) == Ok([b, a])
  {
    TwoObjects(a, b);
    TwoObjects(b, a);
  }

  lemma TwoObjects(a: BootEnvironment, b: BootEnvironment)
    requires WellFormed(a) && WellFormed(b) && a.created == b.created
    ensures Load([Publish(a), Publish(b)]) == Ok([a, b])
  {
    var o := [Publish(a), Publish(b)];
    assert o[0] == Publish(a) && Decode(o[0]) == Ok(a);
    var ob := [Publish(b)];
    assert o[1..] == ob;
    assert ob[0] == Publish(b) && Decode(ob[0]) == Ok(b);
    assert ob[1..] == [];
    assert DecodeAll(ob[1..]) == Ok([]);
    assert DecodeAll(ob) == Ok([b] + []);
    assert [b] + [] == [b];
    var rest := DecodeAll(o[1..]);
    assert rest == Ok([b]);
    assert DecodeAll(o) == Ok([a] + rest.value);
    assert [a, b][1..] == [b];
    assert [b][1..] == [];
    assert SortByCreated([b]) == [b];
    assert SortByCreated([a, b]) == Insert(a, [b]) == [a, b];
  }

  /** Records created at the same time keep their reply order. */
  lemma LoadStable(objects: seq<ManagedObject>, k: Int64)
    requires Load(objects).Ok?
    ensures WithCreated(Load(objects).value, k) == WithCreated(DecodeAll(objects).value, k)
  {
    SortByCreatedStable(DecodeAll(objects).value, k);
  }

  /** When every object in the reply has its own path, so has every loaded record. */
  lemma LoadUniquePaths(objects: seq<ManagedObject>)
    requires forall i, j :: 0 <= i < j < |objects| ==> objects[i].path != objects[j].path
    requires Load(objects).Ok?
    ensures UniquePaths(Load(objects).value)
  {
    var decoded := DecodeAll(objects).value;
    DecodeAllUniquePaths(objects);
    SortPreservesUniquePaths(decoded);
  }

  lemma {:induction false} DecodeAllUniquePaths(objects: seq<ManagedObject>)
    requires forall i, j :: 0 <= i < j < |objects| ==> objects[i].path != objects[j].path
    requires DecodeAll(objects).Ok?
    ensures UniquePaths(DecodeAll(objects).value)
    ensures forall k :: 0 <= k < |DecodeAll(objects).value| ==>
      exists i :: 0 <= i < |objects| && objects[i].path == DecodeAll(objects).value[k].path
  {
    if objects != [] {
      var rest := objects[1..];
      assert forall i, j :: 0 <= i < j < |rest| ==> rest[i].path != rest[j].path by {
        forall i, j | 0 <= i < j < |rest| ensures rest[i].path != rest[j].path {
          assert rest[i] == objects[i + 1] && rest[j] == objects[j + 1];
        }
      }
      DecodeAllUniquePaths(rest);
      var tail := DecodeAll(rest).value;
      forall k | 0 <= k < |tail|
        ensures exists i :: 0 <= i < |objects| && objects[i].path == tail[k].path
        ensures tail[k].path != objects[0].path
      {
        var i :| 0 <= i < |rest| && rest[i].path == tail[k].path;
        assert objects[i + 1].path == tail[k].path;
      }
      if IsBootEnvironment(objects[0]) {
        var env := Decode(objects[0]).value;
        assert DecodeAll(objects).value == [env] + tail;
        assert env.path == objects[0].path;
      }
    }
  }

  /** A worked example: records created at 100, 300, 200 are stored as 100, 200, 300. */
  lemma SortsSample(a: BootEnvironment, b: BootEnvironment, c: BootEnvironment)
    requires a.created == 100 && b.created == 300 && c.created == 200
    ensures SortByCreated([a, b, c]) == [a, c, b]
  {
    assert [a, b, c][1..] == [b, c];
    assert [b, c][1..] == [c];
    assert [c][1..] == [];
    assert SortByCreated([c]) == [c];
    assert Insert(b, [c]) == [c] + Insert(b, []) == [c, b];
    assert SortByCreated([b, c]) == [c, b];
    assert Insert(a, [c, b]) == [a, c, b];
  }
}
