/**
 * The SQL fragments the feature store generates: the platform-specific
 * spatial predicate and geometry read expression, and the WHERE clause a
 * search is given.
 */
module SqlFragments {
  import opened Wrappers
  import opened PhpValues
  import opened GeometryText

  /** The database platform a driver reports. */
  datatype Platform = PostgreSql | Oracle | OtherPlatform(name: string)

  predicate EndsWith(s: string, suffix: string) {
    |suffix| <= |s| && s[|s| - |suffix|..] == suffix
  }

  /** `s` is `head`, then `middle`, then `tail`. */
  predicate FramedBy(s: string, head: string, middle: string, tail: string) {
    && |s| == |head| + |middle| + |tail|
    && StartsWith(s, head) && EndsWith(s, tail)
    && s[|head|..|head| + |middle|] == middle
  }

  lemma Framed(head: string, middle: string, tail: string)
    ensures FramedBy(head + middle + tail, head, middle, tail)
  {
    assert (head + middle + tail)[..|head|] == head;
    assert (head + middle + tail)[|head|..|head| + |middle|] == middle;
    assert (head + middle + tail)[|head + middle|..] == tail;
  }

  /** The three parts determine the text. */
  lemma FramedByUnique(s: string, head: string, middle: string, tail: string)
    requires FramedBy(s, head, middle, tail)
    ensures s == head + middle + tail
  {
    assert s == s[..|head|] + s[|head|..|head| + |middle|] + s[|head| + |middle|..];
  }

  /** `t` occurs somewhere in `s`. */
  predicate Contains(s: string, t: string) {
    StartsWith(s, t) || (s != [] && Contains(s[1..], t))
  }

  /** The spatial predicate "the geometry column intersects this geometry,
      given in `srid` and transformed to `sridTo`"; none for a platform
      without a spatial dialect. */
  function GenIntersectCondition(platform: Platform, geometry: string, geometryAttribute: string,
                                 srid: Value, sridTo: Value): (r: Option<string>)
    ensures r.Some? <==> !platform.OtherPlatform?
    ensures platform.PostgreSql? ==>
              FramedBy(r.value, "ST_INTERSECTS(ST_TRANSFORM(ST_GEOMFROMTEXT('" + geometry + "',",
                       ToStr(srid) + ")," + ToStr(sridTo), ")," + geometryAttribute + ")")
    ensures platform.Oracle? ==>
              FramedBy(r.value, "SDO_RELATE(" + geometryAttribute + " ,SDO_GEOMETRY(SDO_CS.TRANSFORM('" + geometry + "',",
                       ToStr(srid) + ")," + ToStr(sridTo), "), 'mask=ANYINTERACT querytype=WINDOW') = 'TRUE'")
  {
    match platform
    case PostgreSql =>
      var head := "ST_INTERSECTS(ST_TRANSFORM(ST_GEOMFROMTEXT('" + geometry + "',";
      var tail := ")," + geometryAttribute + ")";
      var text := head + (ToStr(srid) + ")," + ToStr(sridTo)) + tail;
      Framed(head, ToStr(srid) + ")," + ToStr(sridTo), tail);
      Some(text)
    case Oracle =>
      var head := "SDO_RELATE(" + geometryAttribute + " ,SDO_GEOMETRY(SDO_CS.TRANSFORM('" + geometry + "',";
      var tail := "), 'mask=ANYINTERACT querytype=WINDOW') = 'TRUE'";
      var text := head + (ToStr(srid) + ")," + ToStr(sridTo)) + tail;
      Framed(head, ToStr(srid) + ")," + ToStr(sridTo), tail);
      Some(text)
    case OtherPlatform(_) => None
  }

  /** The select expression for the geometry column: its text form in
      `sridTo`, aliased back to the column's name; the bare column for a
      platform without a spatial dialect. */
  function GetGeomAttribute(platform: Platform, geometryAttribute: string, sridTo: Value): (r: string)
    ensures platform.OtherPlatform? ==> r == geometryAttribute
    ensures platform.PostgreSql? ==>
              FramedBy(r, "ST_ASTEXT(ST_TRANSFORM(" + geometryAttribute + ", ", ToStr(sridTo) + "))", " AS " + geometryAttribute)
    ensures platform.Oracle? ==>
              FramedBy(r, "SDO_UTIL.TO_WKTGEOMETRY(SDO_CS.TRANSFORM(" + geometryAttribute + ", ", ToStr(sridTo) + "))", " AS " + geometryAttribute)
  {
    match platform
    case PostgreSql =>
      var head := "ST_ASTEXT(ST_TRANSFORM(" + geometryAttribute + ", ";
      var tail := " AS " + geometryAttribute;
      Framed(head, ToStr(sridTo) + "))", tail);
      head + (ToStr(sridTo) + "))") + tail
    case Oracle =>
      var head := "SDO_UTIL.TO_WKTGEOMETRY(SDO_CS.TRANSFORM(" + geometryAttribute + ", ";
      var tail := " AS " + geometryAttribute;
      Framed(head, ToStr(sridTo) + "))", tail);
      head + (ToStr(sridTo) + "))") + tail
    case OtherPlatform(_) => geometryAttribute
  }

  /** `join($sep, $xs)`. */
  function Join(xs: seq<string>, sep: string): string {
    if xs == [] then ""
    else if |xs| == 1 then xs[0]
    else xs[0] + sep + Join(xs[1..], sep)
  }

  /** The WHERE clause a search sets: all conditions joined with AND, and no
      clause at all when there are none. */
  function WhereClause(conditions: seq<string>): (r: Option<string>)
    ensures r.None? <==> conditions == []
  {
    if |conditions| > 0 then Some(Join(conditions, " AND ")) else None
  }

  const MaxResults := 5000

  function K(name: string): Key {
    StrKey(name)
  }

  /** The row limit of a search: `intval` of the given maximum, 5000 by default. */
  function SearchLimit(criteria: Attrs): (r: int)
    ensures !IsSet(criteria, K("maxResults")) ==> r == MaxResults
    ensures IsSet(criteria, K("maxResults")) ==> r == IntVal(criteria[K("maxResults")])
  {
    if IsSet(criteria, K("maxResults")) then IntVal(criteria[K("maxResults")]) else MaxResults
  }

  /** The spatial condition of a search: present when an intersect geometry
      is given, built from that geometry rounded with precision 2. On a
      platform without a spatial dialect the condition is null, which the
      join turns into an empty string. */
  function IntersectPart(criteria: Attrs, platform: Platform, geomField: string, srid: Value, sridTo: Value): seq<string> {
    var intersect := Get(criteria, K("intersectGeometry"));
    if Truthy(intersect) then
      [GenIntersectCondition(platform, RoundGeometry(ToStr(intersect), 2), geomField, srid, sridTo).GetOr("")]
    else []
  }

  /** The store's permanent filter, when it is not empty. */
  function FilterPart(sqlFilter: Value): seq<string> {
    if Truthy(sqlFilter) then [ToStr(sqlFilter)] else []
  }

  /** The caller's own condition, when it is not empty. */
  function WherePart(criteria: Attrs): seq<string> {
    var where := Get(criteria, K("where"));
    if Truthy(where) then [ToStr(where)] else []
  }

  /** The proximity condition, when both a source geometry and a distance
      are given; the source is quoted by the connection. */
  function DistancePart(criteria: Attrs, geomField: string, quote: string -> string): seq<string> {
    if IsSet(criteria, K("source")) && IsSet(criteria, K("distance")) then
      ["ST_DWithin(t." + geomField + "," + quote(ToStr(criteria[K("source")])) + ","
       + ToStr(criteria[K("distance")]) + ")"]
    else []
  }

  /** The conditions of a search, in the order they are added. */
  function SearchConditions(criteria: Attrs, platform: Platform, geomField: string, sqlFilter: Value,
                            srid: Value, sridTo: Value, quote: string -> string): (r: seq<string>)
    ensures |r| <= 4
    ensures Truthy(sqlFilter) ==> ToStr(sqlFilter) in r
  {
    var intersect := IntersectPart(criteria, platform, geomField, srid, sridTo);
    var r := intersect + FilterPart(sqlFilter) + WherePart(criteria) + DistancePart(criteria, geomField, quote);
    assert Truthy(sqlFilter) ==> r[|intersect|] == ToStr(sqlFilter);
    r
  }

  lemma {:induction false} ContainsAfter(p: string, s: string, t: string)
    requires Contains(s, t)
    ensures Contains(p + s, t)
    decreases |p|
  {
    if p != [] {
      ContainsAfter(p[1..], s, t);
      assert (p + s)[1..] == p[1..] + s;
      assert Contains((p + s)[1..], t);
    } else {
      assert p + s == s;
    }
  }

  lemma ContainsPrefix(s: string, rest: string)
    ensures Contains(s + rest, s)
  {
    assert (s + rest)[..|s|] == s;
  }

  /** Every joined part occurs in the joined text. */
  lemma {:induction false} JoinContains(xs: seq<string>, sep: string, i: nat)
    requires i < |xs|
    ensures Contains(Join(xs, sep), xs[i])
  {
    if |xs| == 1 {
      ContainsPrefix(xs[0], []);
      assert xs[0] + [] == xs[0];
    } else if i == 0 {
      ContainsPrefix(xs[0], sep + Join(xs[1..], sep));
      assert xs[0] + sep + Join(xs[1..], sep) == xs[0] + (sep + Join(xs[1..], sep));
    } else {
      JoinContains(xs[1..], sep, i - 1);
      ContainsAfter(xs[0] + sep, Join(xs[1..], sep), xs[i]);
    }
  }

  /** The permanent filter is part of every search's WHERE clause, whatever
      the caller passes. */
  lemma FilterAlwaysApplies(criteria: Attrs, platform: Platform, geomField: string, sqlFilter: Value,
                            srid: Value, sridTo: Value, quote: string -> string)
    requires Truthy(sqlFilter)
    ensures var w := WhereClause(SearchConditions(criteria, platform, geomField, sqlFilter, srid, sridTo, quote));
            w.Some? && Contains(w.value, ToStr(sqlFilter))
  {
    var cs := SearchConditions(criteria, platform, geomField, sqlFilter, srid, sridTo, quote);
    var i := |IntersectPart(criteria, platform, geomField, srid, sridTo)|;
    assert cs[i] == ToStr(sqlFilter);
    JoinContains(cs, " AND ", i);
  }

  /** A search has a WHERE clause exactly when one of the four conditions
      applies. */
  lemma NoConditionsNoWhere(criteria: Attrs, platform: Platform, geomField: string, sqlFilter: Value,
                            srid: Value, sridTo: Value, quote: string -> string)
    ensures WhereClause(SearchConditions(criteria, platform, geomField, sqlFilter, srid, sridTo, quote)).None?
            <==> !Truthy(Get(criteria, K("intersectGeometry"))) && !Truthy(sqlFilter)
                 && !Truthy(Get(criteria, K("where")))
                 && !(IsSet(criteria, K("source")) && IsSet(criteria, K("distance")))
  {
  }

  /** The caller's condition follows the permanent filter, joined with AND. */
  lemma FilterAndWhere(sqlFilter: string, where: string, platform: Platform, geomField: string,
                       srid: Value, sridTo: Value, quote: string -> string)
    requires Truthy(Str(sqlFilter)) && Truthy(Str(where))
    ensures WhereClause(SearchConditions(map[K("where") := Str(where)], platform, geomField, Str(sqlFilter), srid, sridTo, quote))
            == Some(sqlFilter + " AND " + where)
    ensures WhereClause(SearchConditions(map[], platform, geomField, Str(sqlFilter), srid, sridTo, quote))
            == Some(sqlFilter)
  {
    var c := map[K("where") := Str(where)];
    assert !IsSet(c, K("source"));
    assert SearchConditions(c, platform, geomField, Str(sqlFilter), srid, sridTo, quote) == [sqlFilter, where];
    assert Join([where], " AND ") == where;
    assert SearchConditions(map[], platform, geomField, Str(sqlFilter), srid, sridTo, quote) == [sqlFilter];
  }

  /** The first condition of a search with an intersect geometry is the
      spatial predicate on the rounded geometry. */
  lemma IntersectComesFirst(criteria: Attrs, platform: Platform, geomField: string, sqlFilter: Value,
                            srid: Value, sridTo: Value, quote: string -> string)
    requires Truthy(Get(criteria, K("intersectGeometry")))
    requires !platform.OtherPlatform?
    ensures var cs := SearchConditions(criteria, platform, geomField, sqlFilter, srid, sridTo, quote);
            |cs| > 0 && Some(cs[0]) == GenIntersectCondition(platform, RoundGeometry(ToStr(criteria[K("intersectGeometry")]), 2), geomField, srid, sridTo)
  {
  }

  /** On PostgreSQL the column is read in the target SRID; elsewhere it is
      selected as it is. */
  lemma GeomAttributeExamples()
    ensures GetGeomAttribute(PostgreSql, "geom", Str("25832")) == "ST_ASTEXT(ST_TRANSFORM(geom, 25832)) AS geom"
    ensures GetGeomAttribute(OtherPlatform("sqlite"), "geom", Str("25832")) == "geom"
  {
    FramedByUnique(GetGeomAttribute(PostgreSql, "geom", Str("25832")), "ST_ASTEXT(ST_TRANSFORM(geom, ", "25832))", " AS geom");
  }

  /** On Oracle the column is read in the target SRID too. */
  lemma OracleGeomAttributeExample()
    ensures GetGeomAttribute(Oracle, "geom", Str("25832")) == "SDO_UTIL.TO_WKTGEOMETRY(SDO_CS.TRANSFORM(geom, 25832)) AS geom"
  {
    FramedByUnique(GetGeomAttribute(Oracle, "geom", Str("25832")), "SDO_UTIL.TO_WKTGEOMETRY(SDO_CS.TRANSFORM(geom, ", "25832))", " AS geom");
  }
}
