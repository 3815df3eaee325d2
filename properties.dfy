/**
 * Resolving a feature's display name and population from its properties object
 * (`toNum`, `getName`, `getPop` in js/app.js). Names use truthiness (`||`), populations
 * use nullishness (`??`), and the two rules treat an empty or zero field differently.
 */
module Properties {
  import opened JsValues

  const DefaultName: string := "Place"

  /**
   * `f.properties || {}`: the properties object of a feature, with a missing or falsy one
   * read as empty. A truthy value that is not an object has none of the keys read here.
   */
  function FeatureProps(f: JsValue): (p: Props)
    ensures f.Obj? && Get(f.fields, "properties").Obj? ==> p == Get(f.fields, "properties").fields
    ensures p != map[] ==> f.Obj? && Get(f.fields, "properties") == Obj(p)
  {
    if f.Obj? && Truthy(Get(f.fields, "properties")) && Get(f.fields, "properties").Obj?
    then Get(f.fields, "properties").fields
    else map[]
  }

  /** `toNum(x)`: `Number(x)` when that is finite, and 0 otherwise. */
  function ToNum(x: JsValue, parse: string -> JsNumber): (r: real)
    ensures ToNumber(x, parse) == Finite(r) || (r == 0.0 && !ToNumber(x, parse).Finite?)
  {
    var n := ToNumber(x, parse);
    if n.Finite? then n.r else 0.0
  }

  /** What `toNum` yields for each kind of value. */
  lemma ToNumCases(x: JsValue, parse: string -> JsNumber)
    ensures x.Num? && x.n.Finite? ==> ToNum(x, parse) == x.n.r
    ensures x.Num? && !x.n.Finite? ==> ToNum(x, parse) == 0.0
    ensures Nullish(x) || x.Arr? || x.Obj? ==> ToNum(x, parse) == 0.0
    ensures x.Bool? ==> ToNum(x, parse) == if x.b then 1.0 else 0.0
    ensures x.Str? && parse(x.s).Finite? ==> ToNum(x, parse) == parse(x.s).r
    ensures x.Str? && !parse(x.s).Finite? ==> ToNum(x, parse) == 0.0
  {
  }

  /**
   * A result of 0 is ambiguous: it means `Number(x)` was 0 or was not finite (NaN from
   * `undefined` or a non-numeric string, or an infinity); any other result is `Number(x)`.
   */
  lemma ToNumZeroIff(x: JsValue, parse: string -> JsNumber)
    ensures ToNum(x, parse) == 0.0 <==>
              ToNumber(x, parse) == Finite(0.0) || !ToNumber(x, parse).Finite?
    ensures ToNum(x, parse) != 0.0 ==> ToNumber(x, parse) == Finite(ToNum(x, parse))
  {
  }

  /**
   * `getName(p)`: `p.NAME || p.name || "Place"`. The result is always truthy, so in
   * particular never the empty string.
   */
  function GetName(p: Props): (r: JsValue)
    ensures Truthy(r) && r != Str("")
    ensures Truthy(Get(p, "NAME")) ==> r == Get(p, "NAME")
    ensures !Truthy(Get(p, "NAME")) && Truthy(Get(p, "name")) ==> r == Get(p, "name")
    ensures !Truthy(Get(p, "NAME")) && !Truthy(Get(p, "name")) ==> r == Str(DefaultName)
  {
    var vs := [Get(p, "NAME"), Get(p, "name"), Str(DefaultName)];
    assert vs[..1] == [vs[0]] && vs[..2] == [vs[0], vs[1]];
    Or(vs)
  }

  /**
   * `getPop(p)`: `toNum(p.POP_MAX ?? p.pop_max ?? p.POP ?? p.population)`. The first field
   * that is present and not null decides, whatever its value; with none of them it is 0.
   */
  function GetPop(p: Props, parse: string -> JsNumber): (r: real)
    ensures NotNullish(Get(p, "POP_MAX")) ==> r == ToNum(Get(p, "POP_MAX"), parse)
    ensures Nullish(Get(p, "POP_MAX")) && NotNullish(Get(p, "pop_max"))
      ==> r == ToNum(Get(p, "pop_max"), parse)
    ensures Nullish(Get(p, "POP_MAX")) && Nullish(Get(p, "pop_max")) && NotNullish(Get(p, "POP"))
      ==> r == ToNum(Get(p, "POP"), parse)
    ensures Nullish(Get(p, "POP_MAX")) && Nullish(Get(p, "pop_max")) && Nullish(Get(p, "POP"))
      ==> r == ToNum(Get(p, "population"), parse)
    ensures (Nullish(Get(p, "POP_MAX")) && Nullish(Get(p, "pop_max")) && Nullish(Get(p, "POP"))
             && Nullish(Get(p, "population"))) ==> r == 0.0
  {
    var vs := [Get(p, "POP_MAX"), Get(p, "pop_max"), Get(p, "POP"), Get(p, "population")];
    assert vs[..1] == [vs[0]] && vs[..2] == [vs[0], vs[1]] && vs[..3] == [vs[0], vs[1], vs[2]];
    ToNum(Coalesce(vs), parse)
  }

  /** A falsy `NAME` (empty string, 0, false, NaN, null) counts the same as no `NAME` at all. */
  lemma FalsyNameFallsThrough(p: Props)
    requires "NAME" in p && !Truthy(p["NAME"])
    ensures GetName(p) == GetName(p - {"NAME"})
  {
    assert Get(p - {"NAME"}, "NAME") == Undefined;
    assert Get(p - {"NAME"}, "name") == Get(p, "name");
  }

  /** A nullish `POP_MAX` counts the same as no `POP_MAX` at all. */
  lemma NullishPopMaxIgnored(p: Props, parse: string -> JsNumber)
    requires "POP_MAX" in p && Nullish(p["POP_MAX"])
    ensures GetPop(p, parse) == GetPop(p - {"POP_MAX"}, parse)
  {
    var q := p - {"POP_MAX"};
    assert Get(q, "POP_MAX") == Undefined;
    assert Get(q, "pop_max") == Get(p, "pop_max");
    assert Get(q, "POP") == Get(p, "POP");
    assert Get(q, "population") == Get(p, "population");
  }

  /**
   * Unlike a name, a population field that is present but falsy (0, "", false) is used:
   * it hides every later field.
   */
  lemma PresentPopMaxShadows(p: Props, parse: string -> JsNumber)
    requires "POP_MAX" in p && NotNullish(p["POP_MAX"])
    ensures GetPop(p, parse) == GetPop(map["POP_MAX" := p["POP_MAX"]], parse)
  {
    var q := map["POP_MAX" := p["POP_MAX"]];
    assert Get(q, "POP_MAX") == p["POP_MAX"];
  }

  /** In particular a `POP_MAX` of 0 gives population 0 even when `POP` holds a positive count. */
  lemma ZeroPopMaxIsKept(p: Props, parse: string -> JsNumber)
    requires Get(p, "POP_MAX") == Num(Finite(0.0))
    ensures GetPop(p, parse) == 0.0
  {
  }
}
