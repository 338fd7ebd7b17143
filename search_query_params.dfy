/**
 * The `useSearchQueryParams` hook (app/lib/use-search-query-params.ts).
 *
 * Each of `setParams`, `appendParams` and `deleteParams` copies the current,
 * read-only query parameters into a fresh `URLSearchParams`, edits the copy
 * entry by entry, serializes it, and asks the router to navigate to the new
 * query string only when it differs from the old one. The router is modelled
 * as the log of the navigations it was asked for.
 */
module SearchQueryParams {
  import opened Wrappers
  import opened FormUrlEncoded
  import opened SearchParams

  /** `Number.MAX_SAFE_INTEGER`, 2^53 - 1. */
  const MAX_SAFE_INTEGER := 0x1F_FFFF_FFFF_FFFF

  /**
   * The integers a JavaScript number holds exactly. For these `String()` is
   * the plain decimal form: no rounding of trailing digits and no exponent.
   */
  type SafeInteger = n: int | -MAX_SAFE_INTEGER <= n <= MAX_SAFE_INTEGER

  /** A JavaScript string or number; numbers are modelled as safe integers. */
  datatype Scalar = Text(s: string) | Number(n: SafeInteger)

  /** What a key of `params` may hold. */
  datatype ParamValue = Null | Undefined | Scalar(x: Scalar) | Array(items: seq<Scalar>)

  /** One `[key, value]` of `Object.entries(params)`, in that order. */
  datatype Entry = Entry(key: string, value: ParamValue)

  /** The argument of `deleteParams`: one key or an array of keys. */
  datatype Keys = OneKey(key: string) | KeyList(keys: seq<string>)

  datatype RouterMethod = Push | Replace

  /** The hook's options; an absent field takes its default when an operation reads it. */
  datatype Options = Options(
    shouldUseRouter: Option<bool>,
    routerMethod: Option<RouterMethod>,
    scroll: Option<bool>,
    deleteFalseValues: Option<bool>)

  /** A navigation the router was asked for. */
  datatype Navigation = Pushed(url: string, scroll: bool) | Replaced(url: string, scroll: bool)

  // ---------------------------------------------------------------------------
  // Defaults (the destructuring at the top of each operation)

  function UsesRouter(o: Options): bool { o.shouldUseRouter.GetOr(true) }
  function Scrolls(o: Options): bool { o.scroll.GetOr(false) }
  function DeletesFalseValues(o: Options): bool { o.deleteFalseValues.GetOr(true) }
  function MethodOf(o: Options): RouterMethod { o.routerMethod.GetOr(Push) }

  // ---------------------------------------------------------------------------
  // `String(value)` and `!value`

  function DecimalDigits(n: nat): (r: string)
    ensures |r| >= 1 && forall i :: 0 <= i < |r| ==> '0' <= r[i] <= '9'
    decreases n
  {
    if n < 10 then [(48 + n) as char] else DecimalDigits(n / 10) + [(48 + n % 10) as char]
  }

  /** `String(n)` for an integer. */
  function NumberToString(n: int): string {
    if n < 0 then "-" + DecimalDigits(-n) else DecimalDigits(n)
  }

  /**
   * `String(x)`: only the empty string gives "", and a number's string starts
   * with a minus sign exactly when the number is negative.
   */
  function ScalarToString(x: Scalar): (r: string)
    ensures r == "" ==> x == Text("")
    ensures x.Number? ==> r != "" && (r[0] == '-' <==> x.n < 0)
  {
    match x
    case Text(s) => s
    case Number(n) => NumberToString(n)
  }

  /** `items.map(String)`. */
  function Strings(items: seq<Scalar>): (r: seq<string>)
    ensures |r| == |items|
  {
    if |items| == 0 then [] else [ScalarToString(items[0])] + Strings(items[1..])
  }

  /** JavaScript's `!value`: null, undefined, the empty string and 0 are falsy; arrays never are. */
  predicate IsFalsy(v: ParamValue): (b: bool)
    ensures b ==> !v.Array? && (v.Scalar? ==> ScalarToString(v.x) in {"", "0"})
  {
    v.Null? || v.Undefined? || v == Scalar(Text("")) || v == Scalar(Number(0))
  }

  /**
   * The test that sends an entry to `delete`: a falsy value that is either not
   * a scalar (null, undefined) or meets `deleteFalseValues`.
   */
  predicate IsDeleted(v: ParamValue, deleteFalseValues: bool): (b: bool)
    ensures b <==> IsFalsy(v) && (deleteFalseValues || !v.Scalar?)
  {
    v.Null? || v.Undefined? || (deleteFalseValues && IsFalsy(v))
  }

  // ---------------------------------------------------------------------------
  // What the loops compute

  /** The tuples that appending each of `vals` under `key`, in order, adds. */
  function Pairs(key: string, vals: seq<string>): (r: seq<Pair>)
    ensures |r| == |vals|
  {
    if |vals| == 0 then [] else [Pair(key, vals[0])] + Pairs(key, vals[1..])
  }

  /** One iteration of the loop in `setParams`. */
  function SetEntry(ps: seq<Pair>, e: Entry, deleteFalseValues: bool): (r: seq<Pair>)
    ensures |r| <= |ps| + |SetResult(e.value, deleteFalseValues)|
    ensures IsDeleted(e.value, deleteFalseValues) ==> forall i :: 0 <= i < |r| ==> r[i].name != e.key
    ensures e.value.Scalar? && !IsDeleted(e.value, deleteFalseValues) ==> Pair(e.key, ScalarToString(e.value.x)) in r
  {
    if IsDeleted(e.value, deleteFalseValues) then Remove(ps, e.key)
    else match e.value
      case Array(items) => Remove(ps, e.key) + Pairs(e.key, Strings(items))
      case Scalar(x) => SetValue(ps, e.key, ScalarToString(x))
      case _ => ps
  }

  /** One iteration of the loop in `appendParams`. */
  function AppendEntry(ps: seq<Pair>, e: Entry, deleteFalseValues: bool): (r: seq<Pair>)
    ensures !IsDeleted(e.value, deleteFalseValues) ==> ps <= r && |r| == |ps| + |AppendedValues(e.value)|
    ensures IsDeleted(e.value, deleteFalseValues) ==> forall i :: 0 <= i < |r| ==> r[i].name != e.key
  {
    if IsDeleted(e.value, deleteFalseValues) then Remove(ps, e.key)
    else match e.value
      case Array(items) => ps + Pairs(e.key, Strings(items))
      case Scalar(x) => ps + [Pair(e.key, ScalarToString(x))]
      case _ => ps
  }

  /** The loop of `setParams`: the last entry decides what its key holds. */
  function SetEntries(ps: seq<Pair>, es: seq<Entry>, deleteFalseValues: bool): (r: seq<Pair>)
    ensures |es| > 0 && IsDeleted(es[|es| - 1].value, deleteFalseValues) ==>
      forall i :: 0 <= i < |r| ==> r[i].name != es[|es| - 1].key
    decreases |es|
  {
    if |es| == 0 then ps
    else SetEntry(SetEntries(ps, es[..|es| - 1], deleteFalseValues), es[|es| - 1], deleteFalseValues)
  }

  /** The loop of `appendParams`: a deleted last entry leaves nothing under its key. */
  function AppendEntries(ps: seq<Pair>, es: seq<Entry>, deleteFalseValues: bool): (r: seq<Pair>)
    ensures |es| > 0 && IsDeleted(es[|es| - 1].value, deleteFalseValues) ==>
      forall i :: 0 <= i < |r| ==> r[i].name != es[|es| - 1].key
    decreases |es|
  {
    if |es| == 0 then ps
    else AppendEntry(AppendEntries(ps, es[..|es| - 1], deleteFalseValues), es[|es| - 1], deleteFalseValues)
  }

  /** `keys.forEach(key => delete(key))`. */
  function RemoveKeys(ps: seq<Pair>, keys: seq<string>): (r: seq<Pair>)
    ensures forall i :: 0 <= i < |r| ==> r[i] in ps
    ensures forall i, j :: 0 <= i < |r| && 0 <= j < |keys| ==> r[i].name != keys[j]
    decreases |keys|
  {
    if |keys| == 0 then ps
    else
      var kept := RemoveKeys(ps, keys[..|keys| - 1]);
      RemoveKeeps(kept, keys[|keys| - 1]);
      Remove(kept, keys[|keys| - 1])
  }

  function KeyListOf(keys: Keys): seq<string> {
    match keys
    case OneKey(k) => [k]
    case KeyList(ks) => ks
  }

  /** The router call made after an edit, if any. */
  function NavigationFor(o: Options, before: string, after: string): (r: seq<Navigation>)
    ensures |r| <= 1 && (r != [] <==> UsesRouter(o) && after != before)
    ensures r != [] ==> r[0].url == "?" + after && r[0].scroll == Scrolls(o) && (r[0].Pushed? <==> MethodOf(o) == Push)
  {
    if UsesRouter(o) && after != before then
      if MethodOf(o) == Push then [Pushed("?" + after, Scrolls(o))]
      else [Replaced("?" + after, Scrolls(o))]
    else []
  }

  // ---------------------------------------------------------------------------
  // Independent descriptions of the results

  /** The values a key holds after `setParams` gave it `v`. */
  function SetResult(v: ParamValue, deleteFalseValues: bool): seq<string> {
    if IsDeleted(v, deleteFalseValues) then []
    else match v
      case Array(items) => Strings(items)
      case Scalar(x) => [ScalarToString(x)]
      case _ => []
  }

  /** The values `appendParams` adds for `v` (when it does not delete the key). */
  function AppendedValues(v: ParamValue): seq<string> {
    match v
    case Array(items) => Strings(items)
    case Scalar(x) => [ScalarToString(x)]
    case _ => []
  }

  /** All tuples `appendParams` adds for `es`, in entry order. */
  function AddedPairs(es: seq<Entry>): seq<Pair>
    decreases |es|
  {
    if |es| == 0 then []
    else AddedPairs(es[..|es| - 1]) + Pairs(es[|es| - 1].key, AppendedValues(es[|es| - 1].value))
  }

  /** The tuples of `ps` whose name is not in `ks`, in their original order. */
  function Without(ps: seq<Pair>, ks: set<string>): seq<Pair> {
    if |ps| == 0 then []
    else (if ps[0].name in ks then [] else [ps[0]]) + Without(ps[1..], ks)
  }

  // ---------------------------------------------------------------------------
  // Properties

  lemma {:induction false} PairsGetAll(key: string, vals: seq<string>, m: string)
    ensures GetAll(Pairs(key, vals), m) == if m == key then vals else []
  {
    if |vals| > 0 {
      PairsGetAll(key, vals[1..], m);
      GetAllConcat([Pair(key, vals[0])], Pairs(key, vals[1..]), m);
      assert vals == [vals[0]] + vals[1..];
    }
  }

  lemma {:induction false} PairsSnoc(key: string, vals: seq<string>, j: nat)
    requires j < |vals|
    ensures Pairs(key, vals[..j + 1]) == Pairs(key, vals[..j]) + [Pair(key, vals[j])]
  {
    if j > 0 {
      assert vals[..j + 1][1..] == vals[1..][..j];
      assert vals[..j][1..] == vals[1..][..j - 1];
      PairsSnoc(key, vals[1..], j - 1);
    }
  }

  /** `items.map(String)` stringifies each element in place. */
  lemma {:induction false} StringsEach(items: seq<Scalar>)
    ensures forall i :: 0 <= i < |items| ==> Strings(items)[i] == ScalarToString(items[i])
  {
    if |items| > 0 {
      StringsEach(items[1..]);
    }
  }

  lemma StringsSnoc(items: seq<Scalar>, j: nat)
    requires j < |items|
    ensures Strings(items[..j + 1]) == Strings(items[..j]) + [ScalarToString(items[j])]
  {
    if j > 0 {
      assert items[..j + 1][1..] == items[1..][..j];
      assert items[..j][1..] == items[1..][..j - 1];
      StringsSnoc(items[1..], j - 1);
    }
  }

  /**
   * One `setParams` entry: its key ends up holding exactly SetResult (nothing
   * when deleted, the array's strings in order, or the one stringified scalar)
   * and every other key keeps its values.
   */
  lemma SetEntryGetAll(ps: seq<Pair>, e: Entry, deleteFalseValues: bool, m: string)
    ensures GetAll(SetEntry(ps, e, deleteFalseValues), m)
         == if m == e.key then SetResult(e.value, deleteFalseValues) else GetAll(ps, m)
  {
    RemoveGetAll(ps, e.key, m);
    if !IsDeleted(e.value, deleteFalseValues) {
      match e.value
      case Array(items) =>
        GetAllConcat(Remove(ps, e.key), Pairs(e.key, Strings(items)), m);
        PairsGetAll(e.key, Strings(items), m);
      case Scalar(x) =>
        SetValueGetAll(ps, e.key, ScalarToString(x), m);
      case _ =>
    }
  }

  /**
   * With `deleteFalseValues` left at its default (true), a null, undefined,
   * empty-string or zero value removes its key, and so does an empty array.
   */
  lemma DefaultDeletesFalsyValues(o: Options, v: ParamValue)
    requires o.deleteFalseValues.None?
    ensures IsFalsy(v) ==> IsDeleted(v, DeletesFalseValues(o)) && SetResult(v, DeletesFalseValues(o)) == []
    ensures v == Array([]) ==> SetResult(v, DeletesFalseValues(o)) == []
  {
  }

  lemma {:induction false} SetEntriesSplit(ps: seq<Pair>, a: seq<Entry>, b: seq<Entry>, d: bool)
    ensures SetEntries(ps, a + b, d) == SetEntries(SetEntries(ps, a, d), b, d)
    decreases |b|
  {
    if |b| == 0 {
      assert a + b == a;
    } else {
      assert (a + b)[..|a + b| - 1] == a + b[..|b| - 1];
      SetEntriesSplit(ps, a, b[..|b| - 1], d);
    }
  }

  /** `setParams` leaves every key that no entry names as it was. */
  lemma {:induction false} SetParamsOtherKeys(ps: seq<Pair>, es: seq<Entry>, d: bool, m: string)
    requires forall i :: 0 <= i < |es| ==> es[i].key != m
    ensures GetAll(SetEntries(ps, es, d), m) == GetAll(ps, m)
    decreases |es|
  {
    if |es| > 0 {
      SetParamsOtherKeys(ps, es[..|es| - 1], d, m);
      SetEntryGetAll(SetEntries(ps, es[..|es| - 1], d), es[|es| - 1], d, m);
    }
  }

  /**
   * After `setParams`, a key holds exactly what its last entry asks for:
   * nothing when the value is null, undefined or (by default) falsy, the
   * array's elements stringified in array order, or the one stringified scalar.
   */
  lemma SetParamsKeyValues(ps: seq<Pair>, es: seq<Entry>, d: bool, i: nat)
    requires i < |es|
    requires forall j :: i < j < |es| ==> es[j].key != es[i].key
    ensures GetAll(SetEntries(ps, es, d), es[i].key) == SetResult(es[i].value, d)
  {
    var k := es[i].key;
    assert es == es[..i + 1] + es[i + 1..];
    SetEntriesSplit(ps, es[..i + 1], es[i + 1..], d);
    var mid := SetEntries(ps, es[..i + 1], d);
    assert es[..i + 1][..i] == es[..i];
    SetEntryGetAll(SetEntries(ps, es[..i], d), es[i], d, k);
    SetParamsOtherKeys(mid, es[i + 1..], d, k);
  }

  /** After `setParams` with a kept scalar under a key that already existed, the value sits where its first tuple was. */
  lemma SetParamsScalarPlacement(ps: seq<Pair>, key: string, x: Scalar, d: bool)
    requires !IsDeleted(Scalar(x), d)
    ensures Has(ps, key) ==>
      var i := FirstIndex(ps, key);
      SetEntries(ps, [Entry(key, Scalar(x))], d)
        == ps[..i] + [Pair(key, ScalarToString(x))] + Remove(ps[i + 1..], key)
    ensures !Has(ps, key) ==> SetEntries(ps, [Entry(key, Scalar(x))], d) == ps + [Pair(key, ScalarToString(x))]
  {
    assert [Entry(key, Scalar(x))][..0] == [];
    SetValuePlacement(ps, key, ScalarToString(x));
  }

  lemma {:induction false} AppendEntriesSplit(ps: seq<Pair>, a: seq<Entry>, b: seq<Entry>, d: bool)
    ensures AppendEntries(ps, a + b, d) == AppendEntries(AppendEntries(ps, a, d), b, d)
    decreases |b|
  {
    if |b| == 0 {
      assert a + b == a;
    } else {
      assert (a + b)[..|a + b| - 1] == a + b[..|b| - 1];
      AppendEntriesSplit(ps, a, b[..|b| - 1], d);
    }
  }

  /** One kept `appendParams` entry adds its values after the existing tuples. */
  lemma AppendEntryKept(ps: seq<Pair>, e: Entry, d: bool)
    requires !IsDeleted(e.value, d)
    ensures AppendEntry(ps, e, d) == ps + Pairs(e.key, AppendedValues(e.value))
  {
    match e.value
    case Array(items) =>
    case Scalar(x) =>
      assert Pairs(e.key, [ScalarToString(x)]) == [Pair(e.key, ScalarToString(x))];
    case _ =>
  }

  /** One more kept entry extends the `appendParams` result by its own tuples. */
  lemma {:induction false} AppendParamsStep(ps: seq<Pair>, init: seq<Entry>, e: Entry, d: bool)
    requires !IsDeleted(e.value, d) && AppendEntries(ps, init, d) == ps + AddedPairs(init)
    ensures AppendEntries(ps, init + [e], d) == ps + AddedPairs(init + [e])
  {
    var es := init + [e];
    assert es[..|es| - 1] == init && es[|es| - 1] == e;
    var mid := AppendEntries(ps, init, d);
    var added := Pairs(e.key, AppendedValues(e.value));
    assert AppendEntries(ps, es, d) == AppendEntry(mid, e, d);
    AppendEntryKept(mid, e, d);
    assert AddedPairs(es) == AddedPairs(init) + added;
    assert (ps + AddedPairs(init)) + added == ps + (AddedPairs(init) + added);
  }

  /**
   * When no entry is deleted, `appendParams` keeps every existing tuple in
   * place and adds the new values after them, in entry order.
   */
  lemma {:induction false} AppendParamsKeepsExisting(ps: seq<Pair>, es: seq<Entry>, d: bool)
    requires forall i :: 0 <= i < |es| ==> !IsDeleted(es[i].value, d)
    ensures AppendEntries(ps, es, d) == ps + AddedPairs(es)
    decreases |es|
  {
    if |es| > 0 {
      var init, e := es[..|es| - 1], es[|es| - 1];
      assert es == init + [e];
      assert forall i :: 0 <= i < |init| ==> init[i] == es[i];
      AppendParamsKeepsExisting(ps, init, d);
      AppendParamsStep(ps, init, e, d);
    }
  }

  lemma AppendEntryGetAll(ps: seq<Pair>, e: Entry, d: bool, m: string)
    ensures GetAll(AppendEntry(ps, e, d), m)
         == if m != e.key then GetAll(ps, m)
            else if IsDeleted(e.value, d) then []
            else GetAll(ps, m) + AppendedValues(e.value)
  {
    RemoveGetAll(ps, e.key, m);
    if !IsDeleted(e.value, d) {
      match e.value
      case Array(items) =>
        GetAllConcat(ps, Pairs(e.key, Strings(items)), m);
        PairsGetAll(e.key, Strings(items), m);
      case Scalar(x) =>
        AppendGetAll(ps, e.key, ScalarToString(x), m);
      case _ =>
    }
  }

  lemma {:induction false} AppendParamsOtherKeys(ps: seq<Pair>, es: seq<Entry>, d: bool, m: string)
    requires forall i :: 0 <= i < |es| ==> es[i].key != m
    ensures GetAll(AppendEntries(ps, es, d), m) == GetAll(ps, m)
    decreases |es|
  {
    if |es| > 0 {
      AppendParamsOtherKeys(ps, es[..|es| - 1], d, m);
      AppendEntryGetAll(AppendEntries(ps, es[..|es| - 1], d), es[|es| - 1], d, m);
    }
  }

  /**
   * After `appendParams`, the key of an entry (the only one with that key)
   * holds nothing if the entry is deleted, and otherwise its old values
   * followed by the entry's values.
   */
  lemma AppendParamsKeyValues(ps: seq<Pair>, es: seq<Entry>, d: bool, i: nat)
    requires i < |es|
    requires forall j :: 0 <= j < |es| && j != i ==> es[j].key != es[i].key
    ensures GetAll(AppendEntries(ps, es, d), es[i].key)
         == if IsDeleted(es[i].value, d) then [] else GetAll(ps, es[i].key) + AppendedValues(es[i].value)
  {
    var k := es[i].key;
    assert es == es[..i + 1] + es[i + 1..];
    AppendEntriesSplit(ps, es[..i + 1], es[i + 1..], d);
    assert es[..i + 1][..i] == es[..i];
    AppendParamsOtherKeys(ps, es[..i], d, k);
    AppendEntryGetAll(AppendEntries(ps, es[..i], d), es[i], d, k);
    AppendParamsOtherKeys(AppendEntries(ps, es[..i + 1], d), es[i + 1..], d, k);
  }

  lemma {:induction false} RemoveWithout(ps: seq<Pair>, ks: set<string>, k: string)
    ensures Remove(Without(ps, ks), k) == Without(ps, ks + {k})
  {
    if |ps| > 0 {
      RemoveWithout(ps[1..], ks, k);
      RemoveConcat(if ps[0].name in ks then [] else [ps[0]], Without(ps[1..], ks), k);
    }
  }

  lemma {:induction false} WithoutNothing(ps: seq<Pair>)
    ensures Without(ps, {}) == ps
  {
    if |ps| > 0 {
      WithoutNothing(ps[1..]);
      assert ps == [ps[0]] + ps[1..];
    }
  }

  /** `deleteParams` removes exactly the tuples whose name is listed; all others stay, in order. */
  lemma {:induction false} DeleteParamsRemovesListed(ps: seq<Pair>, keys: seq<string>)
    ensures RemoveKeys(ps, keys) == Without(ps, set k | k in keys)
    decreases |keys|
  {
    if |keys| == 0 {
      WithoutNothing(ps);
      assert (set k | k in keys) == {};
    } else {
      var init := keys[..|keys| - 1];
      DeleteParamsRemovesListed(ps, init);
      RemoveWithout(ps, (set k | k in init), keys[|keys| - 1]);
      assert (set k | k in keys) == (set k | k in init) + {keys[|keys| - 1]} by {
        assert keys == init + [keys[|keys| - 1]];
      }
    }
  }

  lemma {:induction false} WithoutMembers(ps: seq<Pair>, ks: set<string>, p: Pair)
    ensures p in Without(ps, ks) <==> p in ps && p.name !in ks
  {
    if |ps| > 0 {
      WithoutMembers(ps[1..], ks, p);
      assert ps == [ps[0]] + ps[1..];
    }
  }

  /**
   * The router is called at most once, and exactly when it is enabled and the
   * edited list differs from the original; the call is `push` unless the
   * method is "replace", and it carries the new query string.
   */
  lemma NavigatesIffChanged(o: Options, before: seq<Pair>, after: seq<Pair>)
    ensures var nav := NavigationFor(o, Serialize(before), Serialize(after));
      && |nav| == (if UsesRouter(o) && after != before then 1 else 0)
      && (|nav| == 1 ==> nav[0].url == "?" + Serialize(after) && nav[0].scroll == Scrolls(o)
                         && (nav[0].Pushed? <==> o.routerMethod != Some(Replace)))
  {
    SerializeInjective(before, after);
  }

  // ---------------------------------------------------------------------------
  // The router and the hook

  /** The Next.js router, reduced to the log of navigations it was asked for. */
  class Router {
    var log: seq<Navigation>

    constructor ()
      ensures log == []
    {
      log := [];
    }

    method Push(url: string, scroll: bool)
      modifies this
      ensures log == old(log) + [Pushed(url, scroll)]
    {
      log := log + [Pushed(url, scroll)];
    }

    method Replace(url: string, scroll: bool)
      modifies this
      ensures log == old(log) + [Replaced(url, scroll)]
    {
      log := log + [Replaced(url, scroll)];
    }
  }

  /** One use of the hook: the read-only current parameters, the hook's options and the router. */
  class SearchQueryParamsHook {
    const searchParams: seq<Pair>
    const options: Options
    const router: Router

    constructor (searchParams: seq<Pair>, options: Options, router: Router)
      ensures this.searchParams == searchParams && this.options == options && this.router == router
    {
      this.searchParams := searchParams;
      this.options := options;
      this.router := router;
    }

    /** The common tail of the three editing operations. */
    method Navigate(o: Options, newParamsString: string)
      modifies router
      ensures router.log == old(router.log) + NavigationFor(o, Serialize(searchParams), newParamsString)
    {
      if UsesRouter(o) && newParamsString != Serialize(searchParams) {
        if MethodOf(o) == Push {
          router.Push("?" + newParamsString, Scrolls(o));
        } else {
          router.Replace("?" + newParamsString, Scrolls(o));
        }
      }
    }

    /** Appends every element of `items`, stringified, under `key` (the `forEach` of both operations). */
    method AppendEach(target: URLSearchParams, key: string, items: seq<Scalar>)
      modifies target
      ensures target.list == old(target.list) + Pairs(key, Strings(items))
    {
      for j := 0 to |items|
        invariant target.list == old(target.list) + Pairs(key, Strings(items[..j]))
      {
        StringsSnoc(items, j);
        var done := Strings(items[..j + 1]);
        PairsSnoc(key, done, j);
        assert done[..j + 1] == done;
        assert done[..j] == Strings(items[..j]);
        target.Append(key, ScalarToString(items[j]));
      }
      assert items[..|items|] == items;
    }

    method SetParams(params: seq<Entry>, methodOptions: Option<Options>) returns (s: string)
      modifies router
      ensures var o := methodOptions.GetOr(options);
        && s == Serialize(SetEntries(searchParams, params, DeletesFalseValues(o)))
        && router.log == old(router.log) + NavigationFor(o, Serialize(searchParams), s)
    {
      var o := methodOptions.GetOr(options);
      var deleteFalseValues := DeletesFalseValues(o);
      var newSearchParams := new URLSearchParams(searchParams);
      for i := 0 to |params|
        invariant newSearchParams.list == SetEntries(searchParams, params[..i], deleteFalseValues)
        invariant router.log == old(router.log)
      {
        var key, value := params[i].key, params[i].value;
        assert params[..i + 1][..i] == params[..i];
        if value.Null? || value.Undefined? || (deleteFalseValues && IsFalsy(value)) {
          newSearchParams.Delete(key);
        } else if value.Array? {
          newSearchParams.Delete(key);
          AppendEach(newSearchParams, key, value.items);
        } else {
          newSearchParams.Set(key, ScalarToString(value.x));
        }
      }
      assert params[..|params|] == params;
      s := newSearchParams.ToString();
      Navigate(o, s);
    }

    method AppendParams(params: seq<Entry>, methodOptions: Option<Options>) returns (s: string)
      modifies router
      ensures var o := methodOptions.GetOr(options);
        && s == Serialize(AppendEntries(searchParams, params, DeletesFalseValues(o)))
        && router.log == old(router.log) + NavigationFor(o, Serialize(searchParams), s)
    {
      var o := methodOptions.GetOr(options);
      var deleteFalseValues := DeletesFalseValues(o);
      var newSearchParams := new URLSearchParams(searchParams);
      for i := 0 to |params|
        invariant newSearchParams.list == AppendEntries(searchParams, params[..i], deleteFalseValues)
        invariant router.log == old(router.log)
      {
        var key, value := params[i].key, params[i].value;
        assert params[..i + 1][..i] == params[..i];
        if value.Null? || value.Undefined? || (deleteFalseValues && IsFalsy(value)) {
          newSearchParams.Delete(key);
        } else if value.Array? {
          AppendEach(newSearchParams, key, value.items);
        } else {
          newSearchParams.Append(key, ScalarToString(value.x));
        }
      }
      assert params[..|params|] == params;
      s := newSearchParams.ToString();
      Navigate(o, s);
    }

    method DeleteParams(keys: Keys, methodOptions: Option<Options>) returns (s: string)
      modifies router
      ensures var o := methodOptions.GetOr(options);
        && s == Serialize(RemoveKeys(searchParams, KeyListOf(keys)))
        && router.log == old(router.log) + NavigationFor(o, Serialize(searchParams), s)
    {
      var o := methodOptions.GetOr(options);
      var newSearchParams := new URLSearchParams(searchParams);
      match keys {
        case KeyList(ks) =>
          for i := 0 to |ks|
            invariant newSearchParams.list == RemoveKeys(searchParams, ks[..i])
            invariant router.log == old(router.log)
          {
            assert ks[..i + 1][..i] == ks[..i];
            newSearchParams.Delete(ks[i]);
          }
          assert ks[..|ks|] == ks;
        case OneKey(k) =>
          newSearchParams.Delete(k);
          assert [k][..0] == [];
      }
      s := newSearchParams.ToString();
      Navigate(o, s);
    }

    /** `getParamValue`: the value of the first tuple with that key in the current parameters, or null. */
    function GetParamValue(key: string): (r: Option<string>)
      ensures r.Some? <==> Has(searchParams, key)
      ensures r.Some? ==> r.value == searchParams[FirstIndex(searchParams, key)].value
    {
      GetAtFirstIndex(searchParams, key);
      Get(searchParams, key)
    }
  }
}
