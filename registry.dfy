/** The write-once name-to-driver registries (the state drivers of
    token/core/fabric/fabric.go and the state-service-provider drivers of
    token/core/state.go, which share their logic) and the sorted listing of
    their names. */
module Registry {
  import opened Results

  /** The outcome of a registration; the two refusals are panics in the
      source, raised before the map is touched. */
  datatype Registration = Registered | NilDriver | Duplicate

  // ---- byte-wise string order, as sort.Strings uses ----

  /** a comes no later than b in lexicographic order. */
  predicate LexLe(a: string, b: string)
    decreases |a|
  {
    |a| == 0 || (|b| > 0 && (a[0] < b[0] || (a[0] == b[0] && LexLe(a[1..], b[1..]))))
  }

  lemma {:induction false} LexLeTotal(a: string, b: string)
    ensures LexLe(a, b) || LexLe(b, a)
    decreases |a|
  {
    if |a| > 0 && |b| > 0 && a[0] == b[0] {
      LexLeTotal(a[1..], b[1..]);
    }
  }

  lemma {:induction false} LexLeTrans(a: string, b: string, c: string)
    requires LexLe(a, b) && LexLe(b, c)
    ensures LexLe(a, c)
    decreases |a|
  {
    if |a| > 0 && a[0] == b[0] && b[0] == c[0] {
      LexLeTrans(a[1..], b[1..], c[1..]);
    }
  }

  predicate Sorted(s: seq<string>) {
    forall i, j :: 0 <= i < j < |s| ==> LexLe(s[i], s[j])
  }

  /** Inserting into a sorted list keeps it sorted and adds exactly x. */
  function Insert(x: string, s: seq<string>): (r: seq<string>)
    requires Sorted(s)
    ensures Sorted(r) && multiset(r) == multiset(s) + multiset{x}
  {
    if s == [] then [x]
    else if LexLe(x, s[0]) then
      assert forall j :: 0 <= j < |s| ==> LexLe(s[0], s[j]) ==> LexLe(x, s[j]) by {
        forall j | 0 <= j < |s| && LexLe(s[0], s[j]) { LexLeTrans(x, s[0], s[j]); }
      }
      [x] + s
    else
      assert s == [s[0]] + s[1..];
      var t := Insert(x, s[1..]);
      LexLeTotal(x, s[0]);
      assert forall y :: y in multiset(t) ==> LexLe(s[0], y) by {
        forall y | y in multiset(t) ensures LexLe(s[0], y) {
          if y != x {
            assert y in multiset(s[1..]);
            var j :| 0 <= j < |s[1..]| && s[1..][j] == y;
            assert y == s[j + 1];
          }
        }
      }
      assert forall j :: 0 <= j < |t| ==> t[j] in multiset(t);
      [s[0]] + t
  }

  /** The names in ascending order, as sort.Strings leaves them. */
  function SortStrings(s: seq<string>): (r: seq<string>)
    ensures Sorted(r) && multiset(r) == multiset(s)
  {
    if s == [] then []
    else
      assert s == [s[0]] + s[1..];
      Insert(s[0], SortStrings(s[1..]))
  }

  /** An element repeated at two positions of a sorted list occurs at least
      twice in its multiset. */
  lemma SortedDistinct(s: seq<string>, i: int, j: int)
    requires Sorted(s) && 0 <= i < j < |s| && s[i] == s[j]
    ensures multiset(s)[s[i]] >= 2
  {
    var m := multiset(s[..j]);
    assert s == s[..j] + s[j..];
    assert s[i] in m by { assert s[..j][i] == s[i]; }
    assert s[j..] == [s[j]] + s[j + 1..];
  }

  /** A write-once registry of drivers by name. */
  class DriverRegistry<D> {
    var drivers: map<string, D>

    constructor()
      ensures drivers == map[]
    {
      drivers := map[];
    }

    /** Makes driver available under name; a nil driver or a name already
        taken is refused and leaves the map as it was. */
    method Register(name: string, driver: Option<D>) returns (r: Registration)
      modifies this
      ensures driver.None? ==> r == NilDriver && drivers == old(drivers)
      ensures driver.Some? && name in old(drivers) ==> r == Duplicate && drivers == old(drivers)
      ensures driver.Some? && name !in old(drivers) ==>
        r == Registered && drivers == old(drivers)[name := driver.value]
    {
      if driver.None? {
        return NilDriver;
      }
      if name in drivers {
        return Duplicate;
      }
      drivers := drivers[name := driver.value];
      return Registered;
    }

    /** Forgets every driver. */
    method UnregisterAll()
      modifies this
      ensures drivers == map[]
    {
      drivers := map[];
    }

    /** The registered names, each once, in ascending order. */
    method Names() returns (list: seq<string>)
      ensures Sorted(list)
      ensures forall i, j :: 0 <= i < j < |list| ==> list[i] != list[j]
      ensures forall n :: n in list <==> n in drivers
      ensures |list| == |drivers|
    {
      var keys := drivers.Keys;
      var names: seq<string> := [];
      while keys != {}
        invariant keys <= drivers.Keys
        invariant forall n :: n in names <==> n in drivers && n !in keys
        invariant forall i, j :: 0 <= i < j < |names| ==> names[i] != names[j]
        invariant |names| + |keys| == |drivers.Keys|
        decreases |keys|
      {
        var name :| name in keys;
        names := names + [name];
        keys := keys - {name};
      }
      list := SortStrings(names);
      assert forall n :: n in list <==> n in names by {
        forall n ensures n in list <==> n in names {
          assert n in list <==> n in multiset(list);
          assert n in names <==> n in multiset(names);
        }
      }
      DistinctCount(names);
      forall i, j | 0 <= i < j < |list|
        ensures list[i] != list[j]
      {
        if list[i] == list[j] {
          SortedDistinct(list, i, j);
          assert false;
        }
      }
    }
  }

  /** Each name of a duplicate-free list occurs once. */
  lemma {:induction false} DistinctCount(s: seq<string>)
    requires forall i, j :: 0 <= i < j < |s| ==> s[i] != s[j]
    ensures forall x :: multiset(s)[x] <= 1
  {
    if s != [] {
      var t := s[..|s| - 1];
      assert s == t + [s[|s| - 1]];
      DistinctCount(t);
      assert s[|s| - 1] !in t by {
        forall k | 0 <= k < |t| ensures t[k] != s[|s| - 1] { assert t[k] == s[k]; }
      }
    }
  }
}
