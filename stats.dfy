/** The category statistics route: how many records carry each category. */
module Stats {
  import opened Catalogue

  /** The number of records whose category is exactly `c` (case matters). */
  function Count(ps: seq<Product>, c: string): (n: nat)
    ensures n <= |ps|
    ensures n > 0 <==> exists k :: 0 <= k < |ps| && ps[k].category == c
    decreases |ps|
  {
    if ps == [] then 0
    else
      var rest := ps[..|ps| - 1];
      assert forall k :: 0 <= k < |rest| ==> rest[k] == ps[k];
      Count(rest, c) + (if ps[|ps| - 1].category == c then 1 else 0)
  }

  /** Adds one to the count of `c`, starting from zero when `c` is new. */
  function Bump(m: map<string, nat>, c: string): map<string, nat>
  {
    m[c := (if c in m then m[c] else 0) + 1]
  }

  /** The statistics as the route builds them: every record, from first to
      last, bumps the count of its category. */
  function Tally(ps: seq<Product>): map<string, nat>
    decreases |ps|
  {
    if ps == [] then map[] else Bump(Tally(ps[..|ps| - 1]), ps[|ps| - 1].category)
  }

  /** The statistics name exactly the categories present in the store, each
      with the number of records carrying it. */
  lemma {:induction false} TallyCounts(ps: seq<Product>)
    ensures forall c :: c in Tally(ps) <==> Count(ps, c) > 0
    ensures forall c :: c in Tally(ps) ==> Tally(ps)[c] == Count(ps, c)
    decreases |ps|
  {
    if ps != [] {
      TallyCounts(ps[..|ps| - 1]);
    }
  }

  /** The sum of the values of a map of counts. */
  ghost function MapSum(m: map<string, nat>): nat
    decreases |m|
  {
    if m == map[] then 0
    else
      var k :| k in m;
      m[k] + MapSum(m - {k})
  }

  /** The sum does not depend on which key is taken out first. */
  lemma {:induction false} MapSumRemove(m: map<string, nat>, k: string)
    requires k in m
    ensures MapSum(m) == m[k] + MapSum(m - {k})
    decreases |m|
  {
    var j :| j in m && MapSum(m) == m[j] + MapSum(m - {j});
    if j != k {
      MapSumRemove(m - {j}, k);
      MapSumRemove(m - {k}, j);
      assert m - {j} - {k} == m - {k} - {j};
    }
  }

  /** Bumping one count raises the sum by one. */
  lemma BumpAddsOne(m: map<string, nat>, c: string)
    ensures MapSum(Bump(m, c)) == MapSum(m) + 1
  {
    var b := Bump(m, c);
    MapSumRemove(b, c);
    assert b - {c} == m - {c};
    if c in m {
      MapSumRemove(m, c);
    } else {
      assert m - {c} == m;
    }
  }

  /** The counts add up to the number of records in the store. */
  lemma {:induction false} TallySumsToSize(ps: seq<Product>)
    ensures MapSum(Tally(ps)) == |ps|
    decreases |ps|
  {
    if ps != [] {
      TallySumsToSize(ps[..|ps| - 1]);
      BumpAddsOne(Tally(ps[..|ps| - 1]), ps[|ps| - 1].category);
    }
  }

  /* The statistics as the code literally computes them. The counts live in a
     plain object literal, so reading the count of a category whose name is
     a member inherited from Object.prototype finds that member instead of
     nothing, and "+ 1" then concatenates text. Writing to "__proto__" with a
     text value is ignored. */

  /** A property value of the statistics object: a number or a text. */
  datatype JsValue = Num(n: int) | Str(s: string)

  /** The method names every plain object inherits. */
  const InheritedMethods: set<string> := {
    "constructor", "hasOwnProperty", "isPrototypeOf", "propertyIsEnumerable",
    "toLocaleString", "toString", "valueOf",
    "__defineGetter__", "__defineSetter__", "__lookupGetter__", "__lookupSetter__" }

  /** The text a native function converts to in V8; the inherited
      "constructor" is the function Object. */
  function NativeSource(k: string): string
  {
    "function " + (if k == "constructor" then "Object" else k) + "() { [native code] }"
  }

  /** A category the plain object does not treat specially. */
  predicate Ordinary(c: string)
  {
    c !in InheritedMethods && c != "__proto__"
  }

  /** Adding 1 to the value read: numbers add, text concatenates "1". */
  function PlusOne(v: JsValue): JsValue
  {
    match v
    case Num(n) => Num(n + 1)
    case Str(s) => Str(s + "1")
  }

  /** The statistics object as the code builds it. */
  function StatsAsWritten(ps: seq<Product>): map<string, JsValue>
    decreases |ps|
  {
    if ps == [] then map[]
    else
      var m := StatsAsWritten(ps[..|ps| - 1]);
      var c := ps[|ps| - 1].category;
      if c == "__proto__" then m
      else
        var current := if c in m then m[c]
                       else if c in InheritedMethods then Str(NativeSource(c))
                       else Num(0);
        m[c := PlusOne(current)]
  }

  /** The object as written holds a key for every present category except
      "__proto__", whose write is lost. */
  lemma {:induction false} StatsAsWrittenKeys(ps: seq<Product>)
    ensures forall c :: c in StatsAsWritten(ps) <==> c != "__proto__" && Count(ps, c) > 0
    decreases |ps|
  {
    if ps != [] {
      StatsAsWrittenKeys(ps[..|ps| - 1]);
    }
  }

  /** The counts as JavaScript numbers. */
  function AsNumbers(m: map<string, nat>): map<string, JsValue>
  {
    map c | c in m :: Num(m[c])
  }

  /** When no category is an inherited member name, the code as written
      computes exactly `Tally`. */
  lemma {:induction false} StatsAsWrittenAgreesOnOrdinary(ps: seq<Product>)
    requires forall k :: 0 <= k < |ps| ==> Ordinary(ps[k].category)
    ensures StatsAsWritten(ps) == AsNumbers(Tally(ps))
    decreases |ps|
  {
    if ps != [] {
      var rest := ps[..|ps| - 1];
      assert forall k :: 0 <= k < |rest| ==> rest[k] == ps[k];
      StatsAsWrittenAgreesOnOrdinary(rest);
    }
  }

  /** One record in category "toString" is reported with a text in place of
      the count 1, and one in category "__proto__" is not reported at all. */
  lemma InheritedNamesMiscounted()
    ensures var p := Product("9", "Mug", "Stoneware mug", 5, "toString", true);
      && Tally([p]) == map["toString" := 1]
      && StatsAsWritten([p]) == map["toString" := Str("function toString() { [native code] }1")]
    ensures var p := Product("9", "Mug", "Stoneware mug", 5, "__proto__", true);
      && Tally([p]) == map["__proto__" := 1]
      && StatsAsWritten([p]) == map[]
  {
    var p := Product("9", "Mug", "Stoneware mug", 5, "toString", true);
    assert [p][..0] == [];
    assert "toString" in InheritedMethods;
    assert NativeSource("toString") + "1" == "function toString() { [native code] }1";
  }
}
