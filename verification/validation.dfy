/**
 * Request validation: the checks the binding makes on its JavaScript
 * arguments (tiles, lnglat, options, callback) before a query is queued,
 * in the order it makes them, with the message of each failure.
 */
module Validation {
  import opened Wrappers
  import opened GeomTypes
  import opened Results
  import opened Query

  /** The JavaScript values the binding can be handed. */
  datatype JsValue =
    | Undefined
    | Null
    | Boolean(b: bool)
    | Number(n: Double)
    | Str(s: string)
    | Array(items: seq<JsValue>)
    | Object(fields: map<string, JsValue>)
    | Buffer(bytes: seq<bv8>)
    | Function

  /**
   * How a request fails: a missing callback is thrown as an exception, every
   * other problem is reported through the callback.
   */
  datatype Error = Thrown(message: string) | CallbackError(message: string)

  const TwoTo31: int := 0x8000_0000
  const TwoTo32: int := 0x1_0000_0000

  /** Argument `i`, or undefined past the end. */
  function Arg(args: seq<JsValue>, i: nat): (v: JsValue)
    ensures i < |args| ==> v == args[i]
    ensures |args| <= i ==> v.Undefined?
  {
    if i < |args| then args[i] else Undefined
  }

  /** Arrays, buffers and functions are objects too. */
  predicate IsObject(v: JsValue): (b: bool)
    ensures b <==> !(v.Undefined? || v.Null? || v.Boolean? || v.Number? || v.Str?)
  {
    v.Object? || v.Array? || v.Buffer? || v.Function?
  }

  /** Only plain objects have fields; a key is present when it is one of them. */
  predicate Has(v: JsValue, key: string): (b: bool)
    ensures b ==> v.Object?
    ensures v.Object? ==> (b <==> key in v.fields)
  {
    v.Object? && key in v.fields
  }

  /** A missing key reads as undefined. */
  function Get(v: JsValue, key: string): (r: JsValue)
    ensures Has(v, key) ==> r == v.fields[key]
    ensures !Has(v, key) ==> r.Undefined?
  {
    if Has(v, key) then v.fields[key] else Undefined
  }

  /** A number's integer part, rounding toward zero. */
  function Truncate(n: real): (i: int)
    ensures 0.0 <= n ==> i as real <= n < i as real + 1.0
    ensures n < 0.0 ==> i as real - 1.0 < n <= i as real
  {
    if n >= 0.0 then n.Floor else -((-n).Floor)
  }

  /**
   * A number read as a signed 32-bit integer: truncated toward zero, then
   * wrapped modulo 2^32 into [-2^31, 2^31).
   */
  function ToInt32(n: real): (r: int)
    ensures -TwoTo31 <= r < TwoTo31
    ensures (r - Truncate(n)) % TwoTo32 == 0
  {
    var m := Truncate(n) % TwoTo32;
    if m >= TwoTo31 then m - TwoTo32 else m
  }

  /** A number whose integer part fits in 32 bits is read as that integer part. */
  lemma ToInt32InRange(n: real)
    requires -TwoTo31 <= Truncate(n) < TwoTo31
    ensures ToInt32(n) == Truncate(n)
  {
    var t := Truncate(n);
    if t < 0 {
      assert t % TwoTo32 == t + TwoTo32;
    } else {
      assert t % TwoTo32 == t;
    }
  }

  /** One of a tile's z / x / y fields: present, a number, and not negative as an int32. */
  function ParseCoordinate(tile: JsValue, name: string): (r: Result<int, Error>)
    ensures r.Success? <==> Has(tile, name) && Get(tile, name).Number? && ToInt32(Get(tile, name).n) >= 0
    ensures r.Success? ==> r.value == ToInt32(Get(tile, name).n) && 0 <= r.value < TwoTo31
  {
    if !Has(tile, name) then
      Failure(CallbackError("item in 'tiles' array does not include a '" + name + "' value"))
    else
      var v := Get(tile, name);
      if !v.Number? then
        Failure(CallbackError("'" + name + "' value in 'tiles' array item is not an int32"))
      else
        var c := ToInt32(v.n);
        if c < 0 then Failure(CallbackError("'" + name + "' value must not be less than zero"))
        else Success(c)
  }

  /** What an acceptable tile object looks like. */
  predicate TileOk(v: JsValue) {
    && Has(v, "buffer") && Get(v, "buffer").Buffer?
    && ParseCoordinate(v, "z").Success?
    && ParseCoordinate(v, "x").Success?
    && ParseCoordinate(v, "y").Success?
  }

  /** One item of the tiles array: an object with a true buffer and z, x, y. */
  function ParseTile(v: JsValue): (r: Result<TileRef, Error>)
    ensures r.Success? <==> TileOk(v)
    ensures r.Success? ==>
              && r.value.z == ParseCoordinate(v, "z").value
              && r.value.x == ParseCoordinate(v, "x").value
              && r.value.y == ParseCoordinate(v, "y").value
              && r.value.buffer == Get(v, "buffer").bytes
  {
    if !IsObject(v) then Failure(CallbackError("items in 'tiles' array must be objects"))
    else if !Has(v, "buffer") then Failure(CallbackError("item in 'tiles' array does not include a buffer value"))
    else
      var buf := Get(v, "buffer");
      if buf.Null? || buf.Undefined? then
        Failure(CallbackError("buffer value in 'tiles' array item is null or undefined"))
      else if !buf.Buffer? then Failure(CallbackError("buffer value in 'tiles' array item is not a true buffer"))
      else
        var z :- ParseCoordinate(v, "z");
        var x :- ParseCoordinate(v, "x");
        var y :- ParseCoordinate(v, "y");
        Success(TileRef(z, x, y, buf.bytes))
  }

  /** The tiles array, item by item; the first bad item decides the error. */
  function ParseTiles(items: seq<JsValue>): (r: Result<seq<TileRef>, Error>)
    ensures r.Success? <==> forall i :: 0 <= i < |items| ==> ParseTile(items[i]).Success?
    ensures r.Success? ==>
              && |r.value| == |items|
              && forall i :: 0 <= i < |items| ==> ParseTile(items[i]) == Success(r.value[i])
  {
    if items == [] then Success([])
    else
      var t :- ParseTile(items[0]);
      var rest :- ParseTiles(items[1..]);
      Success([t] + rest)
  }

  /** A failing tiles array reports the error of its first bad item. */
  lemma {:induction false} ParseTilesFirstError(items: seq<JsValue>)
    requires ParseTiles(items).Failure?
    ensures exists i :: 0 <= i < |items| && ParseTile(items[i]).Failure? &&
              ParseTiles(items).error == ParseTile(items[i]).error &&
              forall j :: 0 <= j < i ==> ParseTile(items[j]).Success?
  {
    if ParseTile(items[0]).Failure? {
      assert ParseTiles(items).error == ParseTile(items[0]).error;
    } else {
      ParseTilesFirstError(items[1..]);
      var i :| 0 <= i < |items[1..]| && ParseTile(items[1..][i]).Failure? &&
                ParseTiles(items[1..]).error == ParseTile(items[1..][i]).error &&
                forall j :: 0 <= j < i ==> ParseTile(items[1..][j]).Success?;
      assert items[i + 1] == items[1..][i];
      forall j | 0 <= j < i + 1
        ensures ParseTile(items[j]).Success?
      {
        if j > 0 {
          assert items[j] == items[1..][j - 1];
        }
      }
    }
  }

  /** The second argument: an array of exactly two numbers, longitude first. */
  function ParseLngLat(v: JsValue): (r: Result<LngLat, Error>)
    ensures r.Success? <==> v.Array? && |v.items| == 2 && v.items[0].Number? && v.items[1].Number?
    ensures r.Success? ==> r.value == LngLat(v.items[0].n, v.items[1].n)
  {
    if !v.Array? then
      Failure(CallbackError("second arg 'lnglat' must be an array with [longitude, latitude] values"))
    else if |v.items| != 2 then Failure(CallbackError("'lnglat' must be an array of [longitude, latitude]"))
    else if !v.items[0].Number? || !v.items[1].Number? then Failure(CallbackError("lnglat values must be numbers"))
    else Success(LngLat(v.items[0].n, v.items[1].n))
  }

  /** An absent option is fine; a present `dedupe` must be a boolean. */
  predicate DedupeOk(o: JsValue) {
    Has(o, "dedupe") ==> Get(o, "dedupe").Boolean?
  }

  function ParseDedupe(opts: JsValue, q: QueryData): (r: Result<QueryData, Error>)
    ensures r.Success? <==> DedupeOk(opts)
    ensures r.Success? ==> r.value == if Has(opts, "dedupe") then q.(dedupe := Get(opts, "dedupe").b) else q
  {
    if !Has(opts, "dedupe") then Success(q)
    else
      var v := Get(opts, "dedupe");
      if !v.Boolean? then Failure(CallbackError("'dedupe' must be a boolean"))
      else Success(q.(dedupe := v.b))
  }

  /** A present `radius` must be a number, not negative. */
  predicate RadiusOk(o: JsValue) {
    Has(o, "radius") ==> Get(o, "radius").Number? && Get(o, "radius").n >= 0.0
  }

  function ParseRadius(opts: JsValue, q: QueryData): (r: Result<QueryData, Error>)
    ensures r.Success? <==> RadiusOk(opts)
    ensures r.Success? ==> r.value == if Has(opts, "radius") then q.(radius := Get(opts, "radius").n) else q
  {
    if !Has(opts, "radius") then Success(q)
    else
      var v := Get(opts, "radius");
      if !v.Number? then Failure(CallbackError("'radius' must be a number"))
      else if v.n < 0.0 then Failure(CallbackError("'radius' must be a positive number"))
      else Success(q.(radius := v.n))
  }

  /** The largest result count a request may ask for. */
  const MaxLimit: int := 1000

  /** A present `limit` must be a number whose int32 reading is in 1..1000. */
  predicate LimitOk(o: JsValue) {
    Has(o, "limit") ==> Get(o, "limit").Number? && 1 <= ToInt32(Get(o, "limit").n) <= MaxLimit
  }

  function ParseLimit(opts: JsValue, q: QueryData): (r: Result<QueryData, Error>)
    ensures r.Success? <==> LimitOk(opts)
    ensures r.Success? ==>
              r.value == if Has(opts, "limit") then q.(numResults := ToInt32(Get(opts, "limit").n)) else q
  {
    if !Has(opts, "limit") then Success(q)
    else
      var v := Get(opts, "limit");
      if !v.Number? then Failure(CallbackError("'limit' must be a number"))
      else
        var c := ToInt32(v.n);
        if c < 1 then Failure(CallbackError("'limit' must be 1 or greater"))
        else if c > MaxLimit then Failure(CallbackError("'limit' must be less than 1000"))
        else Success(q.(numResults := c))
  }

  /** A layer name list: every item a non-empty string. */
  function ParseLayerNames(items: seq<JsValue>): (r: Result<seq<string>, Error>)
    ensures r.Success? <==> forall i :: 0 <= i < |items| ==> items[i].Str? && |items[i].s| > 0
    ensures r.Success? ==> |r.value| == |items| && forall i :: 0 <= i < |items| ==> r.value[i] == items[i].s
  {
    if items == [] then Success([])
    else if !items[0].Str? then Failure(CallbackError("'layers' values must be strings"))
    else if |items[0].s| == 0 then Failure(CallbackError("'layers' values must be non-empty strings"))
    else
      var rest :- ParseLayerNames(items[1..]);
      Success([items[0].s] + rest)
  }

  /** A present `layers` must be an array of non-empty strings. */
  predicate LayersOk(o: JsValue) {
    Has(o, "layers") ==>
      && Get(o, "layers").Array?
      && forall i :: 0 <= i < |Get(o, "layers").items| ==>
           Get(o, "layers").items[i].Str? && |Get(o, "layers").items[i].s| > 0
  }

  function ParseLayers(opts: JsValue, q: QueryData): (r: Result<QueryData, Error>)
    ensures r.Success? <==> LayersOk(opts)
    ensures r.Success? ==>
              r.value == if Has(opts, "layers") then q.(layers := ParseLayerNames(Get(opts, "layers").items).value) else q
  {
    if !Has(opts, "layers") then Success(q)
    else
      var v := Get(opts, "layers");
      if !v.Array? then Failure(CallbackError("'layers' must be an array of strings"))
      else
        var names :- ParseLayerNames(v.items);
        Success(q.(layers := names))
  }

  /** The geometry kinds a request may filter on, by name. */
  function GeometryFilterOf(s: string): (g: Option<GeomType>)
    ensures g.Some? <==> s in {"point", "linestring", "polygon"}
    ensures g.Some? ==> g.value in {Point, LineString, Polygon} && GeomTypeString(g.value) == s
  {
    if s == "point" then Some(Point)
    else if s == "linestring" then Some(LineString)
    else if s == "polygon" then Some(Polygon)
    else None
  }

  /** A present `geometry` must name one of the three filterable kinds. */
  predicate GeometryOk(o: JsValue) {
    Has(o, "geometry") ==> Get(o, "geometry").Str? && Get(o, "geometry").s in {"point", "linestring", "polygon"}
  }

  function ParseGeometry(opts: JsValue, q: QueryData): (r: Result<QueryData, Error>)
    ensures r.Success? <==> GeometryOk(opts)
    ensures r.Success? ==>
              r.value == if Has(opts, "geometry")
                         then q.(geometryFilter := GeometryFilterOf(Get(opts, "geometry").s).value) else q
  {
    if !Has(opts, "geometry") then Success(q)
    else
      var v := Get(opts, "geometry");
      if !v.Str? then Failure(CallbackError("'geometry' option must be a string"))
      else if |v.s| == 0 then Failure(CallbackError("'geometry' value must be a non-empty string"))
      else match GeometryFilterOf(v.s)
        case Some(g) => Success(q.(geometryFilter := g))
        case None => Failure(CallbackError("'geometry' must be 'point', 'linestring', or 'polygon'"))
  }

  /**
   * The options object, option by option in a fixed order: each option that
   * is present replaces its default, and every other field is kept.
   */
  function ParseOptions(opts: JsValue, q: QueryData): (r: Result<QueryData, Error>)
    ensures r.Success? <==> OptionsOk(opts)
    ensures r.Success? ==>
              && r.value.tiles == q.tiles && r.value.latitude == q.latitude && r.value.longitude == q.longitude
              && r.value.dedupe == (if Has(opts, "dedupe") then Get(opts, "dedupe").b else q.dedupe)
              && r.value.radius == (if Has(opts, "radius") then Get(opts, "radius").n else q.radius)
              && r.value.numResults == (if Has(opts, "limit") then ToInt32(Get(opts, "limit").n) else q.numResults)
              && r.value.layers == (if Has(opts, "layers") then ParseLayerNames(Get(opts, "layers").items).value else q.layers)
              && r.value.geometryFilter ==
                   (if Has(opts, "geometry") then GeometryFilterOf(Get(opts, "geometry").s).value else q.geometryFilter)
  {
    if !IsObject(opts) then Failure(CallbackError("'options' arg must be an object"))
    else
      var q1 :- ParseDedupe(opts, q);
      var q2 :- ParseRadius(opts, q1);
      var q3 :- ParseLimit(opts, q2);
      var q4 :- ParseLayers(opts, q3);
      ParseGeometry(opts, q4)
  }

  /**
   * The whole argument list: the callback must come last, then the tiles
   * array, then lnglat, and the options object is read only when there are
   * more than three arguments. It accepts exactly the acceptable argument
   * lists, keeping the tiles in order with their coordinates read as int32,
   * the query point from lnglat, and the defaults unless more than three
   * arguments were passed.
   */
  function Validate(args: seq<JsValue>): (r: Result<QueryData, Error>)
    ensures r.Success? <==> Acceptable(args)
    ensures r.Success? ==>
              && |r.value.tiles| == |args[0].items|
              && (forall i :: 0 <= i < |r.value.tiles| ==> ParseTile(args[0].items[i]) == Success(r.value.tiles[i]))
              && r.value.longitude == args[1].items[0].n && r.value.latitude == args[1].items[1].n
              && (|args| <= 3 ==> r.value == DefaultQuery(r.value.tiles).(longitude := r.value.longitude,
                                                                           latitude := r.value.latitude))
              && (|args| > 3 ==>
                    ParseOptions(args[2], DefaultQuery(r.value.tiles).(longitude := r.value.longitude,
                                                                       latitude := r.value.latitude)) == r)
  {
    if |args| == 0 || !args[|args| - 1].Function? then Failure(Thrown("last argument must be a callback function"))
    else if !args[0].Array? then Failure(CallbackError("first arg 'tiles' must be an array of tile objects"))
    else if |args[0].items| == 0 then Failure(CallbackError("'tiles' array must be of length greater than 0"))
    else
      var tiles :- ParseTiles(args[0].items);
      var at :- ParseLngLat(Arg(args, 1));
      var q := DefaultQuery(tiles).(longitude := at.lng, latitude := at.lat);
      if |args| > 3 then ParseOptions(args[2], q) else Success(q)
  }

  /** What an acceptable options object looks like. */
  predicate OptionsOk(o: JsValue) {
    IsObject(o) && DedupeOk(o) && RadiusOk(o) && LimitOk(o) && LayersOk(o) && GeometryOk(o)
  }

  /** What an acceptable argument list looks like. */
  predicate Acceptable(args: seq<JsValue>) {
    && |args| > 0 && args[|args| - 1].Function?
    && args[0].Array? && |args[0].items| > 0
    && (forall i :: 0 <= i < |args[0].items| ==> TileOk(args[0].items[i]))
    && Arg(args, 1).Array? && |Arg(args, 1).items| == 2
    && Arg(args, 1).items[0].Number? && Arg(args, 1).items[1].Number?
    && (|args| > 3 ==> OptionsOk(args[2]))
  }

  /** What every query that passes validation satisfies. */
  predicate WellFormed(q: QueryData) {
    && |q.tiles| > 0
    && (forall i :: 0 <= i < |q.tiles| ==>
          0 <= q.tiles[i].z < TwoTo31 && 0 <= q.tiles[i].x < TwoTo31 && 0 <= q.tiles[i].y < TwoTo31)
    && 1 <= q.numResults <= MaxLimit
    && q.radius >= 0.0
    && q.geometryFilter in {All, Point, LineString, Polygon}
    && (forall i :: 0 <= i < |q.layers| ==> |q.layers[i]| > 0)
  }

  /** Accepted options keep the settings a validated query needs within their bounds. */
  lemma OptionsKeepBounds(opts: JsValue, q: QueryData)
    requires 1 <= q.numResults <= MaxLimit && q.radius >= 0.0 && q.geometryFilter == All && q.layers == []
    requires ParseOptions(opts, q).Success?
    ensures var r := ParseOptions(opts, q).value;
            && 1 <= r.numResults <= MaxLimit && r.radius >= 0.0
            && r.geometryFilter in {All, Point, LineString, Polygon}
            && (forall i :: 0 <= i < |r.layers| ==> |r.layers[i]| > 0)
  {
  }

  /** What validation accepts is a well-formed query. */
  lemma ValidatedIsWellFormed(args: seq<JsValue>)
    requires Validate(args).Success?
    ensures WellFormed(Validate(args).value)
  {
    var tiles := ParseTiles(args[0].items).value;
    var at := ParseLngLat(Arg(args, 1)).value;
    var q := DefaultQuery(tiles).(longitude := at.lng, latitude := at.lat);
    forall i | 0 <= i < |q.tiles|
      ensures 0 <= q.tiles[i].z < TwoTo31 && 0 <= q.tiles[i].x < TwoTo31 && 0 <= q.tiles[i].y < TwoTo31
    {
      assert ParseTile(args[0].items[i]) == Success(q.tiles[i]);
    }
    if |args| > 3 {
      OptionsKeepBounds(args[2], q);
    }
  }

  /** A missing or misplaced callback is reported before anything else is looked at. */
  lemma CallbackCheckedFirst(args: seq<JsValue>)
    requires |args| == 0 || !args[|args| - 1].Function?
    ensures Validate(args) == Failure(Thrown("last argument must be a callback function"))
  {
  }

  /**
   * A limit of exactly 1000 is accepted, although the message for the
   * upper bound reads "less than 1000"; 1001 is the first rejected value.
   */
  lemma LimitUpperBound(q: QueryData)
    ensures ParseLimit(Object(map["limit" := Number(1000.0)]), q) == Success(q.(numResults := 1000))
    ensures ParseLimit(Object(map["limit" := Number(1001.0)]), q) ==
              Failure(CallbackError("'limit' must be less than 1000"))
  {
    ToInt32InRange(1000.0);
    ToInt32InRange(1001.0);
  }

  /** Fractional limits are truncated: 0.5 reads as 0 and is rejected. */
  lemma LimitTruncated(q: QueryData)
    ensures ParseLimit(Object(map["limit" := Number(5.9)]), q) == Success(q.(numResults := 5))
    ensures ParseLimit(Object(map["limit" := Number(0.5)]), q) ==
              Failure(CallbackError("'limit' must be 1 or greater"))
  {
    ToInt32InRange(5.9);
    ToInt32InRange(0.5);
  }

  /** Tile coordinates wrap as int32: 2^32 + 3 reads as 3 and is accepted. */
  lemma CoordinateWrapsAround()
    ensures ParseCoordinate(Object(map["z" := Number(4294967299.0)]), "z") == Success(3)
  {
    assert Truncate(4294967299.0) == 4294967299;
  }

  /** 2^31 reads as -2^31, so a coordinate of 2^31 is rejected as negative. */
  lemma CoordinateHighBitNegative(tile: JsValue, name: string)
    requires Has(tile, name) && Get(tile, name) == Number(2147483648.0)
    ensures ToInt32(Get(tile, name).n) == -TwoTo31
    ensures ParseCoordinate(tile, name).Failure?
  {
    assert Truncate(2147483648.0) == 2147483648;
    assert 2147483648 % TwoTo32 == 2147483648;
  }

  /** The three filterable kinds are named exactly as the emitter names them. */
  lemma GeometryNamesRoundTrip(g: GeomType)
    requires g in {Point, LineString, Polygon}
    ensures GeometryFilterOf(GeomTypeString(g)) == Some(g)
  {
  }

  /** "unknown", the emitter's name for the all-kinds value, is not a filter a request may set. */
  lemma UnknownNotAFilter()
    ensures GeometryFilterOf(GeomTypeString(All)).None?
  {
  }
}
