/**
 * The list operations of the `URLSearchParams` class, section 6.2 of the
 * WHATWG URL Standard: the parameters are an ordered list of (name, value)
 * tuples in which a name may occur any number of times.
 */
module SearchParams {
  import opened Wrappers
  import opened FormUrlEncoded

  /** Some tuple of `ps` has name `n`. */
  predicate Has(ps: seq<Pair>, n: string) {
    |ps| > 0 && (ps[0].name == n || Has(ps[1..], n))
  }

  /** The position of the first tuple named `n`. */
  function FirstIndex(ps: seq<Pair>, n: string): (i: nat)
    requires Has(ps, n)
    ensures i < |ps| && ps[i].name == n
    ensures forall j :: 0 <= j < i ==> ps[j].name != n
  {
    if ps[0].name == n then 0 else 1 + FirstIndex(ps[1..], n)
  }

  /** `getAll(name)`: the values of the tuples named `n`, in list order. */
  function GetAll(ps: seq<Pair>, n: string): (r: seq<string>)
    ensures |r| <= |ps|
    ensures forall i :: 0 <= i < |r| ==> Pair(n, r[i]) in ps
  {
    if |ps| == 0 then []
    else (if ps[0].name == n then [ps[0].value] else []) + GetAll(ps[1..], n)
  }

  /** `get(name)`: the value of the first tuple named `n`, or null. */
  function Get(ps: seq<Pair>, n: string): (r: Option<string>)
    ensures r.Some? <==> Has(ps, n)
    ensures r.Some? ==> Pair(n, r.value) in ps
  {
    if |ps| == 0 then None
    else if ps[0].name == n then Some(ps[0].value)
    else Get(ps[1..], n)
  }

  /** `delete(name)`: removes every tuple named `n`. */
  function Remove(ps: seq<Pair>, n: string): (r: seq<Pair>)
    ensures |r| <= |ps| && forall i :: 0 <= i < |r| ==> r[i].name != n
  {
    if |ps| == 0 then []
    else (if ps[0].name == n then [] else [ps[0]]) + Remove(ps[1..], n)
  }

  /**
   * `set(name, value)`: if a tuple is named `n`, its first one takes the value
   * `v` and the others are removed; otherwise (n, v) is appended.
   */
  function SetValue(ps: seq<Pair>, n: string, v: string): (r: seq<Pair>)
    ensures |r| <= |ps| + 1 && Pair(n, v) in r
    ensures forall i :: 0 <= i < |r| && r[i].name == n ==> r[i] == Pair(n, v)
    ensures forall i, j :: 0 <= i < j < |r| && r[i].name == n ==> r[j].name != n
  {
    if |ps| == 0 then [Pair(n, v)]
    else if ps[0].name == n then [Pair(n, v)] + Remove(ps[1..], n)
    else [ps[0]] + SetValue(ps[1..], n, v)
  }

  // ---------------------------------------------------------------------------
  // Properties of the list operations

  lemma {:induction false} GetAllConcat(a: seq<Pair>, b: seq<Pair>, n: string)
    ensures GetAll(a + b, n) == GetAll(a, n) + GetAll(b, n)
  {
    if |a| > 0 {
      var head := if a[0].name == n then [a[0].value] else [];
      assert (a + b)[1..] == a[1..] + b;
      assert GetAll(a + b, n) == head + GetAll(a[1..] + b, n);
      GetAllConcat(a[1..], b, n);
      assert head + (GetAll(a[1..], n) + GetAll(b, n)) == (head + GetAll(a[1..], n)) + GetAll(b, n);
    } else {
      assert a + b == b;
    }
  }

  lemma {:induction false} GetAllHas(ps: seq<Pair>, n: string)
    ensures GetAll(ps, n) != [] <==> Has(ps, n)
  {
    if |ps| > 0 {
      GetAllHas(ps[1..], n);
    }
  }

  /** `get` gives the first of the values `getAll` gives, or null when there are none. */
  lemma {:induction false} GetIsFirstOfGetAll(ps: seq<Pair>, n: string)
    ensures Get(ps, n) == if GetAll(ps, n) == [] then None else Some(GetAll(ps, n)[0])
  {
    if |ps| > 0 && ps[0].name != n {
      GetIsFirstOfGetAll(ps[1..], n);
    }
  }

  /** `get` finds the tuple at FirstIndex. */
  lemma {:induction false} GetAtFirstIndex(ps: seq<Pair>, n: string)
    ensures Has(ps, n) ==> Get(ps, n) == Some(ps[FirstIndex(ps, n)].value)
    ensures !Has(ps, n) ==> Get(ps, n) == None
  {
    if |ps| > 0 {
      GetAtFirstIndex(ps[1..], n);
    }
  }

  /** After `delete(n)` no value is left under `n` and every other name keeps its values. */
  lemma {:induction false} RemoveGetAll(ps: seq<Pair>, n: string, m: string)
    ensures GetAll(Remove(ps, n), m) == if m == n then [] else GetAll(ps, m)
  {
    if |ps| > 0 {
      RemoveGetAll(ps[1..], n, m);
      GetAllConcat(if ps[0].name == n then [] else [ps[0]], Remove(ps[1..], n), m);
    }
  }

  /** `delete` keeps exactly the tuples with other names. */
  lemma {:induction false} RemoveMembers(ps: seq<Pair>, n: string, p: Pair)
    ensures p in Remove(ps, n) <==> p in ps && p.name != n
  {
    if |ps| > 0 {
      RemoveMembers(ps[1..], n, p);
      assert ps == [ps[0]] + ps[1..];
    }
  }

  /** Every tuple `delete` keeps was in the list. */
  lemma {:induction false} RemoveKeeps(ps: seq<Pair>, n: string)
    ensures forall i :: 0 <= i < |Remove(ps, n)| ==> Remove(ps, n)[i] in ps
  {
    forall i | 0 <= i < |Remove(ps, n)| ensures Remove(ps, n)[i] in ps {
      RemoveMembers(ps, n, Remove(ps, n)[i]);
    }
  }

  /** `delete` keeps the relative order of what it keeps: it distributes over concatenation. */
  lemma {:induction false} RemoveConcat(a: seq<Pair>, b: seq<Pair>, n: string)
    ensures Remove(a + b, n) == Remove(a, n) + Remove(b, n)
  {
    if |a| > 0 {
      assert (a + b)[1..] == a[1..] + b;
      RemoveConcat(a[1..], b, n);
    } else {
      assert a + b == b;
    }
  }

  /** `delete` of an absent name changes nothing. */
  lemma {:induction false} RemoveAbsent(ps: seq<Pair>, n: string)
    requires !Has(ps, n)
    ensures Remove(ps, n) == ps
  {
    if |ps| > 0 {
      RemoveAbsent(ps[1..], n);
      assert ps == [ps[0]] + ps[1..];
    }
  }

  /** After `set(n, v)` the name `n` has exactly the value `v`; every other name keeps its values. */
  lemma {:induction false} SetValueGetAll(ps: seq<Pair>, n: string, v: string, m: string)
    ensures GetAll(SetValue(ps, n, v), m) == if m == n then [v] else GetAll(ps, m)
  {
    if |ps| == 0 {
    } else if ps[0].name == n {
      GetAllConcat([Pair(n, v)], Remove(ps[1..], n), m);
      RemoveGetAll(ps[1..], n, m);
    } else {
      GetAllConcat([ps[0]], SetValue(ps[1..], n, v), m);
      SetValueGetAll(ps[1..], n, v, m);
    }
  }

  /** A placement found in the tail of `ps` carries over to `ps` one position later. */
  lemma {:induction false} SetValueShift(ps: seq<Pair>, n: string, v: string, i: nat)
    requires |ps| > 0 && ps[0].name != n && i + 1 < |ps|
    requires SetValue(ps[1..], n, v) == ps[1..][..i] + [Pair(n, v)] + Remove(ps[1..][i + 1..], n)
    ensures SetValue(ps, n, v) == ps[..i + 1] + [Pair(n, v)] + Remove(ps[i + 2..], n)
  {
    assert ps[..i + 1] == [ps[0]] + ps[1..][..i];
    assert ps[i + 2..] == ps[1..][i + 1..];
  }

  /**
   * Where `set` puts the value: in place of the first tuple named `n`, with the
   * list before it untouched and the rest losing only its tuples named `n`;
   * when no tuple is named `n`, at the end.
   */
  lemma {:induction false} SetValuePlacement(ps: seq<Pair>, n: string, v: string)
    ensures Has(ps, n) ==>
      var i := FirstIndex(ps, n);
      SetValue(ps, n, v) == ps[..i] + [Pair(n, v)] + Remove(ps[i + 1..], n)
    ensures !Has(ps, n) ==> SetValue(ps, n, v) == ps + [Pair(n, v)]
  {
    if |ps| > 0 && ps[0].name != n {
      SetValuePlacement(ps[1..], n, v);
      if Has(ps, n) {
        var i := FirstIndex(ps[1..], n);
        assert FirstIndex(ps, n) == i + 1;
        SetValueShift(ps, n, v, i);
      } else {
        assert ps == [ps[0]] + ps[1..];
      }
    } else if |ps| > 0 {
      assert FirstIndex(ps, n) == 0;
      assert ps[..0] == [];
    }
  }

  /** `append(n, v)` adds `v` after the values `n` already has and touches no other name. */
  lemma AppendGetAll(ps: seq<Pair>, n: string, v: string, m: string)
    ensures GetAll(ps + [Pair(n, v)], m) == GetAll(ps, m) + (if m == n then [v] else [])
  {
    GetAllConcat(ps, [Pair(n, v)], m);
  }

  // ---------------------------------------------------------------------------
  // The mutable object

  /** A `URLSearchParams` object: its list is changed in place by its methods. */
  class URLSearchParams {
    var list: seq<Pair>

    /** `new URLSearchParams(init)`: a fresh object holding a copy of the tuples of `init`. */
    constructor (init: seq<Pair>)
      ensures list == init
    {
      list := init;
    }

    method Delete(n: string)
      modifies this
      ensures list == Remove(old(list), n)
    {
      list := Remove(list, n);
    }

    method Append(n: string, v: string)
      modifies this
      ensures list == old(list) + [Pair(n, v)]
    {
      list := list + [Pair(n, v)];
    }

    method Set(n: string, v: string)
      modifies this
      ensures list == SetValue(old(list), n, v)
    {
      list := SetValue(list, n, v);
    }

    /** `toString()`: the urlencoded serialization of the list. */
    function ToString(): string
      reads this
    {
      Serialize(list)
    }
  }
}
