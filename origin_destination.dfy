/**
 * Travel-demand records: origin-destination (OD) pairs, optionally clustered
 * into an origin zone and a destination zone, their orders, and the two
 * loaders that turn already-parsed table rows into records in file order.
 */
module OriginDestinations {

  /** A C++ `int`. The table reader rejects values that overflow it. */
  type Int32 = x: int | -0x8000_0000 <= x < 0x8000_0000

  /**
   * The sentinel for "no id". Its numeric value is defined outside this
   * model and no property here depends on it.
   */
  const InvalidId: Int32

  // ---------------------------------------------------------------------
  // Lexicographic order on integer keys: the reference the orders below are
  // proved against.
  // ---------------------------------------------------------------------

  /** `s` comes strictly before `t` in lexicographic order. */
  ghost predicate LexLess(s: seq<int>, t: seq<int>)
    requires |s| == |t|
  {
    |s| > 0 && (s[0] < t[0] || (s[0] == t[0] && LexLess(s[1..], t[1..])))
  }

  lemma {:induction false} LexLessIrreflexive(s: seq<int>)
    ensures !LexLess(s, s)
  {
    if |s| > 0 {
      LexLessIrreflexive(s[1..]);
    }
  }

  lemma {:induction false} LexLessTransitive(s: seq<int>, t: seq<int>, u: seq<int>)
    requires |s| == |t| == |u|
    requires LexLess(s, t) && LexLess(t, u)
    ensures LexLess(s, u)
  {
    if s[0] == t[0] == u[0] {
      LexLessTransitive(s[1..], t[1..], u[1..]);
    }
  }

  /** Two keys of one length are equal or ordered one way. */
  lemma {:induction false} LexLessTrichotomy(s: seq<int>, t: seq<int>)
    requires |s| == |t|
    ensures LexLess(s, t) || LexLess(t, s) || s == t
  {
    if |s| > 0 && s[0] == t[0] {
      LexLessTrichotomy(s[1..], t[1..]);
      if s[1..] == t[1..] {
        assert s == [s[0]] + s[1..] && t == [t[0]] + t[1..];
      }
    }
  }

  // ---------------------------------------------------------------------
  // OriginDestination
  // ---------------------------------------------------------------------

  /** An OD pair: a demand of `volume` from `origin` to `destination`. */
  datatype OriginDestination = OriginDestination(origin: Int32, destination: Int32, volume: Int32)

  /** `operator<`: lexicographic on (origin, destination). */
  predicate Less(a: OriginDestination, b: OriginDestination)
  {
    a.origin < b.origin || (a.origin == b.origin && a.destination < b.destination)
  }

  ghost function EndpointKey(a: OriginDestination): seq<int>
  {
    [a.origin, a.destination]
  }

  /** `operator<` is exactly the lexicographic order on the (origin, destination) key. */
  lemma LessIsLexicographic(a: OriginDestination, b: OriginDestination)
    ensures Less(a, b) <==> LexLess(EndpointKey(a), EndpointKey(b))
  {
    var s, t := EndpointKey(a), EndpointKey(b);
    assert s[1..] == [a.destination] && t[1..] == [b.destination];
    assert s[1..][1..] == [] && t[1..][1..] == [];
    assert LexLess(s[1..], t[1..]) <==> a.destination < b.destination;
  }

  /** The volume never takes part in the order. */
  lemma LessIgnoresVolume(a: OriginDestination, b: OriginDestination, va: Int32, vb: Int32)
    ensures Less(a, b) <==> Less(a.(volume := va), b.(volume := vb))
  {
  }

  /** `operator<` is a strict order: irreflexive, asymmetric and transitive. */
  lemma LessIsStrictOrder(a: OriginDestination, b: OriginDestination, c: OriginDestination)
    ensures !Less(a, a)
    ensures Less(a, b) ==> !Less(b, a)
    ensures Less(a, b) && Less(b, c) ==> Less(a, c)
  {
    LessIsLexicographic(a, a);
    LexLessIrreflexive(EndpointKey(a));
    if Less(a, b) && Less(b, c) {
      LessIsLexicographic(a, b);
      LessIsLexicographic(b, c);
      LessIsLexicographic(a, c);
      LexLessTransitive(EndpointKey(a), EndpointKey(b), EndpointKey(c));
    }
  }

  /** Two pairs are incomparable exactly when their endpoints agree, whatever the volumes. */
  lemma LessIncomparableIff(a: OriginDestination, b: OriginDestination)
    ensures (!Less(a, b) && !Less(b, a)) <==> (a.origin == b.origin && a.destination == b.destination)
  {
  }

  // ---------------------------------------------------------------------
  // ClusteredOriginDestination
  // ---------------------------------------------------------------------

  /** An OD pair together with the zones of its origin and its destination. */
  datatype ClusteredOriginDestination =
    ClusteredOriginDestination(od: OriginDestination, originZone: Int32, destinationZone: Int32)

  /** The constructor, with the C++ argument order (o, d, oZone, dZone, v). */
  function Clustered(o: Int32, d: Int32, oZone: Int32, dZone: Int32, v: Int32): (r: ClusteredOriginDestination)
    ensures r.od.origin == o && r.od.destination == d && r.od.volume == v
    ensures r.originZone == oZone && r.destinationZone == dZone
  {
    ClusteredOriginDestination(OriginDestination(o, d, v), oZone, dZone)
  }

  /** The refined `operator<`: origin zone, then destination zone, then the base order. */
  predicate ClusteredLess(a: ClusteredOriginDestination, b: ClusteredOriginDestination)
  {
    if a.originZone < b.originZone then true
    else if a.originZone > b.originZone then false
    else if a.destinationZone < b.destinationZone then true
    else if a.destinationZone > b.destinationZone then false
    else Less(a.od, b.od)
  }

  /** `hasSameZones`: compares the zone pair only. */
  predicate HasSameZones(a: ClusteredOriginDestination, b: ClusteredOriginDestination)
  {
    a.originZone == b.originZone && a.destinationZone == b.destinationZone
  }

  ghost function ClusteredKey(a: ClusteredOriginDestination): seq<int>
  {
    [a.originZone, a.destinationZone, a.od.origin, a.od.destination]
  }

  /** The refined order is lexicographic on (originZone, destinationZone, origin, destination). */
  lemma ClusteredLessIsLexicographic(a: ClusteredOriginDestination, b: ClusteredOriginDestination)
    ensures ClusteredLess(a, b) <==> LexLess(ClusteredKey(a), ClusteredKey(b))
  {
    var s, t := ClusteredKey(a), ClusteredKey(b);
    assert s[1..] == [a.destinationZone, a.od.origin, a.od.destination];
    assert t[1..] == [b.destinationZone, b.od.origin, b.od.destination];
    assert s[1..][1..] == EndpointKey(a.od) && t[1..][1..] == EndpointKey(b.od);
    LessIsLexicographic(a.od, b.od);
  }

  /** A smaller origin zone makes a record less, a larger one makes it not less, whatever the endpoints. */
  lemma OriginZoneDominates(a: ClusteredOriginDestination, b: ClusteredOriginDestination)
    ensures a.originZone < b.originZone ==> ClusteredLess(a, b)
    ensures a.originZone > b.originZone ==> !ClusteredLess(a, b)
  {
  }

  /** With equal origin zones the destination zone decides; with equal zones the base order does. */
  lemma DestinationZoneThenEndpoints(a: ClusteredOriginDestination, b: ClusteredOriginDestination)
    requires a.originZone == b.originZone
    ensures a.destinationZone < b.destinationZone ==> ClusteredLess(a, b)
    ensures a.destinationZone > b.destinationZone ==> !ClusteredLess(a, b)
    ensures a.destinationZone == b.destinationZone ==> (ClusteredLess(a, b) <==> Less(a.od, b.od))
  {
  }

  /** The refined order is a strict order too. */
  lemma ClusteredLessIsStrictOrder(a: ClusteredOriginDestination, b: ClusteredOriginDestination, c: ClusteredOriginDestination)
    ensures !ClusteredLess(a, a)
    ensures ClusteredLess(a, b) ==> !ClusteredLess(b, a)
    ensures ClusteredLess(a, b) && ClusteredLess(b, c) ==> ClusteredLess(a, c)
  {
    ClusteredLessIsLexicographic(a, a);
    LexLessIrreflexive(ClusteredKey(a));
    if ClusteredLess(a, b) && ClusteredLess(b, c) {
      ClusteredLessIsLexicographic(a, b);
      ClusteredLessIsLexicographic(b, c);
      ClusteredLessIsLexicographic(a, c);
      LexLessTransitive(ClusteredKey(a), ClusteredKey(b), ClusteredKey(c));
    }
  }

  /** Records the refined order cannot tell apart have the same zones and the same endpoints. */
  lemma ClusteredIncomparableHasSameZones(a: ClusteredOriginDestination, b: ClusteredOriginDestination)
    requires !ClusteredLess(a, b) && !ClusteredLess(b, a)
    ensures HasSameZones(a, b)
    ensures a.od.origin == b.od.origin && a.od.destination == b.od.destination
  {
    ClusteredLessIsLexicographic(a, b);
    ClusteredLessIsLexicographic(b, a);
    LexLessTrichotomy(ClusteredKey(a), ClusteredKey(b));
    assert ClusteredKey(a)[0] == ClusteredKey(b)[0] && ClusteredKey(a)[1] == ClusteredKey(b)[1];
    assert ClusteredKey(a)[2] == ClusteredKey(b)[2] && ClusteredKey(a)[3] == ClusteredKey(b)[3];
  }

  /** `hasSameZones` is an equivalence relation. */
  lemma HasSameZonesIsEquivalence(a: ClusteredOriginDestination, b: ClusteredOriginDestination, c: ClusteredOriginDestination)
    ensures HasSameZones(a, a)
    ensures HasSameZones(a, b) ==> HasSameZones(b, a)
    ensures HasSameZones(a, b) && HasSameZones(b, c) ==> HasSameZones(a, c)
  {
  }

  /** `hasSameZones` looks at the zones only: origin, destination and volume do not matter. */
  lemma HasSameZonesIgnoresEndpoints(a: ClusteredOriginDestination, b: ClusteredOriginDestination,
                                     odA: OriginDestination, odB: OriginDestination)
    ensures HasSameZones(a, b) <==> HasSameZones(a.(od := odA), b.(od := odB))
  {
  }

  /** A sequence that the refined order sorts (no later record is less than an earlier one). */
  ghost predicate ClusteredSorted(s: seq<ClusteredOriginDestination>)
  {
    forall i, j :: 0 <= i < j < |s| ==> !ClusteredLess(s[j], s[i])
  }

  /**
   * Sorting by the refined order keeps every zone-to-zone group contiguous:
   * whatever lies between two records with the same zones has those zones too.
   */
  lemma SortedGroupsAreContiguous(s: seq<ClusteredOriginDestination>, i: int, j: int, k: int)
    requires ClusteredSorted(s)
    requires 0 <= i <= j <= k < |s|
    requires HasSameZones(s[i], s[k])
    ensures HasSameZones(s[i], s[j])
  {
    assert !ClusteredLess(s[j], s[i]) && !ClusteredLess(s[k], s[j]);
    assert s[j].originZone == s[i].originZone;
  }

  // ---------------------------------------------------------------------
  // Loaders, over rows the table reader has already split and parsed
  // ---------------------------------------------------------------------

  /** One parsed data row of a plain demand table: its origin, destination and volume columns. */
  datatype ODRow = ODRow(origin: Int32, destination: Int32, volume: Int32)

  /**
   * One parsed data row of a clustered demand table. A zone value is read
   * only when the header has that column.
   */
  datatype ClusteredRow = ClusteredRow(origin: Int32, destination: Int32, originZone: Int32,
                                       destinationZone: Int32, volume: Int32)

  /** Which of the optional zone columns the header of a clustered table names. */
  datatype ZoneColumns = ZoneColumns(hasOriginZone: bool, hasDestinationZone: bool)

  /** `importODPairsFrom`: one record per data row, in row order. */
  method ImportODPairs(rows: seq<ODRow>) returns (pairs: seq<OriginDestination>)
    requires forall i :: 0 <= i < |rows| ==>
      rows[i].origin >= 0 && rows[i].destination >= 0 && rows[i].volume >= 0
    ensures |pairs| == |rows|
    ensures forall i :: 0 <= i < |rows| ==>
      pairs[i] == OriginDestination(rows[i].origin, rows[i].destination, rows[i].volume)
    ensures forall i :: 0 <= i < |pairs| ==>
      pairs[i].origin >= 0 && pairs[i].destination >= 0 && pairs[i].volume >= 0
  {
    pairs := [];
    var n := 0;
    while n < |rows|
      invariant 0 <= n <= |rows|
      invariant |pairs| == n
      invariant forall i :: 0 <= i < n ==>
        pairs[i] == OriginDestination(rows[i].origin, rows[i].destination, rows[i].volume)
    {
      var origin, destination, volume := rows[n].origin, rows[n].destination, rows[n].volume;
      pairs := pairs + [OriginDestination(origin, destination, volume)];
      n := n + 1;
    }
  }

  /** The zone a record gets: the row's value when the column exists, otherwise `InvalidId`. */
  function ZoneOf(present: bool, value: Int32): Int32
  {
    if present then value else InvalidId
  }

  /**
   * `importClusteredODPairsFrom`: one record per data row, in row order. The
   * zone variables start at `InvalidId` and a row overwrites one only when
   * its column exists, so a missing zone column leaves `InvalidId` in every
   * record. The volume is not checked for sign.
   */
  method ImportClusteredODPairs(columns: ZoneColumns, rows: seq<ClusteredRow>)
    returns (pairs: seq<ClusteredOriginDestination>)
    requires forall i :: 0 <= i < |rows| ==> rows[i].origin >= 0 && rows[i].destination >= 0
    ensures |pairs| == |rows|
    ensures forall i :: 0 <= i < |rows| ==>
      pairs[i] == Clustered(rows[i].origin, rows[i].destination,
                            ZoneOf(columns.hasOriginZone, rows[i].originZone),
                            ZoneOf(columns.hasDestinationZone, rows[i].destinationZone),
                            rows[i].volume)
    ensures !columns.hasOriginZone ==> forall i :: 0 <= i < |pairs| ==> pairs[i].originZone == InvalidId
    ensures !columns.hasDestinationZone ==> forall i :: 0 <= i < |pairs| ==> pairs[i].destinationZone == InvalidId
    ensures !columns.hasOriginZone && !columns.hasDestinationZone ==>
      forall i, j :: 0 <= i < |pairs| && 0 <= j < |pairs| ==> HasSameZones(pairs[i], pairs[j])
  {
    pairs := [];
    var originZone, destinationZone := InvalidId, InvalidId;
    var n := 0;
    while n < |rows|
      invariant 0 <= n <= |rows|
      invariant |pairs| == n
      invariant !columns.hasOriginZone ==> originZone == InvalidId
      invariant !columns.hasDestinationZone ==> destinationZone == InvalidId
      invariant forall i :: 0 <= i < n ==>
        pairs[i] == Clustered(rows[i].origin, rows[i].destination,
                              ZoneOf(columns.hasOriginZone, rows[i].originZone),
                              ZoneOf(columns.hasDestinationZone, rows[i].destinationZone),
                              rows[i].volume)
    {
      var origin, destination, volume := rows[n].origin, rows[n].destination, rows[n].volume;
      if columns.hasOriginZone {
        originZone := rows[n].originZone;
      }
      if columns.hasDestinationZone {
        destinationZone := rows[n].destinationZone;
      }
      pairs := pairs + [Clustered(origin, destination, originZone, destinationZone, volume)];
      n := n + 1;
    }
  }
}
