/** `load_light` of Server/maploader.py: one light entity of a level's entity list
    becomes `{'origin', 'light'[, 'style']}` for the client.

    The entity dictionary comes from `qdata.parse_entities`, and its origin is read
    by `qdata.parse_vec3`; neither is part of this model, so the entity's values are
    modelled as the Python values they may be, and the parsers (with Python's own
    `float(str)` and `int(str)`) are parameters. */
module Lights {
  import opened Results
  import opened Geometry

  /** A value of the entity dictionary. */
  datatype PyVal = PyInt(i: int) | PyReal(r: real) | PyStr(s: string)

  /** `{'origin': ..., 'light': ...}`, with `'style'` when present. */
  datatype Light = Light(origin: Vec3, light: real, style: Option<int>)

  /** The light level an entity without a `light` key gets. */
  const DefaultLight := 200

  /** Python 2's `v != 0`: a number compares by value, and a string is never equal to
      a number. */
  predicate NonZero(v: PyVal)
  {
    match v
    case PyInt(i) => i != 0
    case PyReal(r) => r != 0.0
    case PyStr(_) => true
  }

  /** `int(r)` of a float: truncation toward zero. */
  function Truncate(r: real): (n: int)
    ensures 0.0 <= r ==> n as real <= r < n as real + 1.0
    ensures r < 0.0 ==> n as real - 1.0 < r <= n as real
  {
    if r >= 0.0 then r.Floor else -((-r).Floor)
  }

  /** `float(v)`; `parseFloat` is `float` of a string, which may raise. */
  function ToFloat(v: PyVal, parseFloat: string -> Result<real>): (r: Result<real>)
    ensures v.PyInt? ==> r == Ok(v.i as real)
    ensures v.PyReal? ==> r == Ok(v.r)
  {
    match v
    case PyInt(i) => Ok(i as real)
    case PyReal(x) => Ok(x)
    case PyStr(s) => parseFloat(s)
  }

  /** `int(v)`; `parseInt` is `int` of a string, which may raise. */
  function ToInt(v: PyVal, parseInt: string -> Result<int>): (r: Result<int>)
    ensures v.PyInt? ==> r == Ok(v.i)
    ensures v.PyReal? ==> r.Ok? && (r.value as real - v.r) * (r.value as real - v.r) < 1.0
    ensures v.PyReal? ==> r.Ok? && (0.0 <= v.r ==> 0 <= r.value) && (v.r <= 0.0 ==> r.value <= 0)
  {
    match v
    case PyInt(i) => Ok(i)
    case PyReal(x) => Ok(Truncate(x))
    case PyStr(s) => parseInt(s)
  }

  /** `load_light(entity)`. */
  function LoadLight(entity: map<string, PyVal>, parseVec3: PyVal -> Result<Vec3>,
                     parseFloat: string -> Result<real>, parseInt: string -> Result<int>): (r: Result<Light>)
  {
    var eLight := if "light" in entity then entity["light"] else PyInt(DefaultLight);
    if "origin" !in entity then Err(KeyError)
    else
      var origin :- parseVec3(entity["origin"]);
      var light :- ToFloat(eLight, parseFloat);
      if "style" in entity && NonZero(entity["style"]) then
        var style :- ToInt(entity["style"], parseInt);
        Ok(Light(MapVertex(origin), light, Some(style)))
      else
        Ok(Light(MapVertex(origin), light, None))
  }

  /** What `load_light` promises: an entity without an origin raises KeyError; the
      origin is the parsed one swapped into the client's axes; the level defaults to
      200; and the style is passed on exactly when the entity has one that is not the
      number 0. */
  lemma LightOf(entity: map<string, PyVal>, parseVec3: PyVal -> Result<Vec3>,
                parseFloat: string -> Result<real>, parseInt: string -> Result<int>)
    ensures var r := LoadLight(entity, parseVec3, parseFloat, parseInt);
      "origin" !in entity ==> r == Err(KeyError)
    ensures var r := LoadLight(entity, parseVec3, parseFloat, parseInt);
      r.Ok? ==> "origin" in entity && parseVec3(entity["origin"]).Ok? &&
                r.value.origin == MapVertex(parseVec3(entity["origin"]).value)
    ensures var r := LoadLight(entity, parseVec3, parseFloat, parseInt);
      r.Ok? && "light" !in entity ==> r.value.light == 200.0
    ensures var r := LoadLight(entity, parseVec3, parseFloat, parseInt);
      r.Ok? && "light" in entity ==> ToFloat(entity["light"], parseFloat) == Ok(r.value.light)
    ensures var r := LoadLight(entity, parseVec3, parseFloat, parseInt);
      r.Ok? ==> (r.value.style.Some? <==> "style" in entity && NonZero(entity["style"]))
    ensures var r := LoadLight(entity, parseVec3, parseFloat, parseInt);
      r.Ok? && r.value.style.Some? ==> ToInt(entity["style"], parseInt) == Ok(r.value.style.value)
  {
  }

  /** A style that is a string is always passed on, even the string "0", since in
      Python 2 no string equals the number 0. */
  lemma StringStyleKept(entity: map<string, PyVal>, parseVec3: PyVal -> Result<Vec3>,
                        parseFloat: string -> Result<real>, parseInt: string -> Result<int>)
    requires "style" in entity && entity["style"].PyStr?
    requires LoadLight(entity, parseVec3, parseFloat, parseInt).Ok?
    ensures LoadLight(entity, parseVec3, parseFloat, parseInt).value.style ==
      Some(parseInt(entity["style"].s).value)
  {
  }

  /** Only a parse that fails can make a light with an origin fail: numbers always
      convert. */
  lemma NumbersLoad(entity: map<string, PyVal>, parseVec3: PyVal -> Result<Vec3>,
                    parseFloat: string -> Result<real>, parseInt: string -> Result<int>)
    requires "origin" in entity && parseVec3(entity["origin"]).Ok?
    requires "light" in entity ==> !entity["light"].PyStr?
    requires "style" in entity ==> !entity["style"].PyStr?
    ensures LoadLight(entity, parseVec3, parseFloat, parseInt).Ok?
  {
  }
}
