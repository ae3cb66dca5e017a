/**
  The writer of a CF discrete-sampling-geometry trajectory collection in the
  contiguous ragged array representation (CF Conventions, Appendix H, section
  H.4.3). For each trajectory it writes every observation as one record of the
  observation stream, counts them, then writes one feature-level record carrying
  the trimmed trajectory name and that count.

  The calls the writer makes on the point-writer base class (trackBB and
  writeStructureData) are kept, in order, as a log of events; the base class's
  writeStructureData is taken to return its record number plus one.
 */
module TrajectoryWriter {
  import opened Optional
  import opened Structures
  import opened Features
  import opened TrajectorySchema
  import opened JavaStrings

  /** Where a record goes: the observation record structure, or the feature-level
      structure handle (None where no such structure was declared). */
  datatype Target = ObsRecord | FeatureStruct(handle: Option<string>)

  /** A call made on the base class. */
  datatype Event =
    | Tracked(lat: real, lon: real, time: real)
    | Written(target: Target, recno: int, record: CompositeData, filter: set<string>)

  /** What the writer is created with: the base class's names, the time unit,
      the altitude units (None for a null altUnits), the catalog of data
      variables, the set of observation-level variable names that filters
      observation records, and the number of features. */
  datatype Setup = Setup(
    names: Names,
    timeUnit: TimeUnit,
    altUnits: Option<string>,
    dataVars: seq<VarDecl>,
    dataMap: set<string>,
    nfeatures: int)

  // ---------------------------------------------------------------------------
  // What one call writes

  /** The coordinate members of an observation record: time, latitude and
      longitude, then altitude when altitude units are declared. */
  function ObsCoords(setup: Setup, traj: Trajectory, pf: PointFeature): Record
  {
    [ Member(traj.timeName, Double(pf.time)),
      Member(setup.names.latName, Double(pf.lat)),
      Member(setup.names.lonName, Double(pf.lon)) ]
    + if setup.altUnits.Some? then [Member(traj.altName, Double(pf.alt))] else []
  }

  /** The observation record: its coordinates layered over its own data. */
  function ObsRecordOf(setup: Setup, traj: Trajectory, pf: PointFeature): CompositeData
  {
    CompositeData(ObsCoords(setup, traj, pf), pf.featureData)
  }

  /** The calls made for one observation: track its position, then write its
      record as number `recno`. */
  function ObsCalls(setup: Setup, traj: Trajectory, pf: PointFeature, recno: int): seq<Event>
  {
    [Tracked(pf.lat, pf.lon, pf.time), Written(ObsRecord, recno, ObsRecordOf(setup, traj, pf), setup.dataMap)]
  }

  /** The calls made for a run of observations, starting at record number `recno`. */
  function ObsEvents(setup: Setup, traj: Trajectory, obs: seq<PointFeature>, recno: int): seq<Event>
    decreases |obs|
  {
    if obs == [] then []
    else
      var n := |obs| - 1;
      ObsEvents(setup, traj, obs[..n], recno) + ObsCalls(setup, traj, obs[n], recno + n)
  }

  /** The coordinate members of a trajectory's summary record. */
  function SummaryCoords(names: Names, traj: Trajectory, nobs: int, idStrlen: int): Record
  {
    [ Member(names.trajIdName, Chars(Trim(traj.name), idStrlen)),
      Member(names.numberOfObsName, Int(nobs)) ]
  }

  /** The summary record: its coordinates layered over the trajectory's data. */
  function SummaryRecord(names: Names, traj: Trajectory, nobs: int, idStrlen: int): CompositeData
  {
    CompositeData(SummaryCoords(names, traj, nobs, idStrlen), traj.featureData)
  }

  function SummaryEvent(names: Names, traj: Trajectory, nobs: int, idStrlen: int, trajRecno: int,
                        featureStruct: Option<string>, featureVarMap: set<string>): Event
  {
    Written(FeatureStruct(featureStruct), trajRecno, SummaryRecord(names, traj, nobs, idStrlen), featureVarMap)
  }

  /** Everything writeTrajectory writes for one trajectory. */
  function TrajectoryEvents(setup: Setup, traj: Trajectory, obsRecno: int, trajRecno: int, idStrlen: int,
                            featureStruct: Option<string>, featureVarMap: set<string>): seq<Event>
  {
    ObsEvents(setup, traj, traj.obs, obsRecno)
    + [SummaryEvent(setup.names, traj, |traj.obs|, idStrlen, trajRecno, featureStruct, featureVarMap)]
  }

  /** The record numbers written to the observation stream (toObs) or to the
      feature stream (!toObs), in the order written. */
  function Recnos(events: seq<Event>, toObs: bool): seq<int>
    decreases |events|
  {
    if events == [] then []
    else
      var e := events[|events| - 1];
      Recnos(events[..|events| - 1], toObs)
      + if e.Written? && e.target.ObsRecord? == toObs then [e.recno] else []
  }

  /** The record numbers start, start + 1, ..., start + len - 1, in order. */
  function Span(start: int, len: nat): seq<int>
    decreases len
  {
    if len == 0 then [] else Span(start, len - 1) + [start + len - 1]
  }

  /** The structure the base class finds under a name once building is done. */
  function FindStructure(schema: FeatureSchema, name: string): Option<string>
  {
    if schema.ExtendedStructure? && schema.structName == name then Some(name) else None
  }

  function FeatureDataOf(trajs: seq<Trajectory>): seq<Record>
  {
    seq(|trajs|, i requires 0 <= i < |trajs| => trajs[i].featureData)
  }

  // ---------------------------------------------------------------------------
  // Lemmas about the record streams

  lemma {:induction false} RecnosAppend(a: seq<Event>, b: seq<Event>, toObs: bool)
    ensures Recnos(a + b, toObs) == Recnos(a, toObs) + Recnos(b, toObs)
    decreases |b|
  {
    if b == [] {
      assert a + b == a;
    } else {
      var n := |b| - 1;
      assert (a + b)[..|a + b| - 1] == a + b[..n];
      assert (a + b)[|a + b| - 1] == b[n];
      RecnosAppend(a, b[..n], toObs);
    }
  }

  lemma RecnosSingle(e: Event, toObs: bool)
    ensures Recnos([e], toObs) == if e.Written? && e.target.ObsRecord? == toObs then [e.recno] else []
  {
    assert [e][..0] == [];
  }

  /** Two adjacent spans of record numbers make one span. */
  lemma {:induction false} SpanAppend(start: int, a: nat, b: nat)
    ensures Span(start, a) + Span(start + a, b) == Span(start, a + b)
    decreases b
  {
    if b == 0 {
      assert Span(start, a) + [] == Span(start, a);
    } else {
      SpanAppend(start, a, b - 1);
      assert Span(start, a) + (Span(start + a, b - 1) + [start + a + b - 1])
          == (Span(start, a) + Span(start + a, b - 1)) + [start + a + b - 1];
    }
  }

  /** The record numbers of a span, one by one. */
  lemma {:induction false} SpanAt(start: int, len: nat, k: nat)
    requires k < len
    ensures |Span(start, len)| == len && Span(start, len)[k] == start + k
    decreases len
  {
    if k < len - 1 {
      SpanAt(start, len - 1, k);
    } else {
      SpanLength(start, len - 1);
    }
  }

  lemma {:induction false} SpanLength(start: int, len: nat)
    ensures |Span(start, len)| == len
    decreases len
  {
    if len > 0 {
      SpanLength(start, len - 1);
    }
  }

  lemma {:induction false} ObsEventsLength(setup: Setup, traj: Trajectory, obs: seq<PointFeature>, recno: int)
    ensures |ObsEvents(setup, traj, obs, recno)| == 2 * |obs|
    decreases |obs|
  {
    if obs != [] {
      ObsEventsLength(setup, traj, obs[..|obs| - 1], recno);
    }
  }

  /** The calls made so far wrote observation records 0 .. obsRecno - 1 and
      feature records 0 .. trajRecno - 1, each stream in increasing order. */
  ghost predicate Numbered(events: seq<Event>, obsRecno: nat, trajRecno: nat)
  {
    Recnos(events, true) == Span(0, obsRecno) && Recnos(events, false) == Span(0, trajRecno)
  }

  /** Tracking a point and writing the next observation record keeps the
      numbering, advancing only the observation stream. */
  lemma NumberedObs(events: seq<Event>, obsRecno: nat, trajRecno: nat, t: Event, w: Event)
    requires Numbered(events, obsRecno, trajRecno)
    requires t.Tracked? && w.Written? && w.target == ObsRecord && w.recno == obsRecno
    ensures Numbered(events + [t, w], obsRecno + 1, trajRecno)
  {
    var tw := [t, w];
    assert tw[..1] == [t];
    RecnosSingle(t, true);
    RecnosSingle(t, false);
    assert Recnos(tw, true) == [obsRecno];
    assert Recnos(tw, false) == [];
    RecnosAppend(events, tw, true);
    RecnosAppend(events, tw, false);
  }

  /** Writing the next feature record keeps the numbering, advancing only the
      feature stream. */
  lemma NumberedFeature(events: seq<Event>, obsRecno: nat, trajRecno: nat, w: Event)
    requires Numbered(events, obsRecno, trajRecno)
    requires w.Written? && w.target.FeatureStruct? && w.recno == trajRecno
    ensures Numbered(events + [w], obsRecno, trajRecno + 1)
  {
    RecnosAppend(events, [w], true);
    RecnosAppend(events, [w], false);
    assert [w][..0] == [];
  }

  /** Observation i is tracked and then written as record recno + i, at
      positions 2i and 2i + 1 of the calls made. */
  lemma {:induction false} ObsEventsAt(setup: Setup, traj: Trajectory, obs: seq<PointFeature>, recno: int, i: nat)
    requires i < |obs|
    ensures var e := ObsEvents(setup, traj, obs, recno);
      && |e| == 2 * |obs|
      && e[2 * i] == Tracked(obs[i].lat, obs[i].lon, obs[i].time)
      && e[2 * i + 1] == Written(ObsRecord, recno + i, ObsRecordOf(setup, traj, obs[i]), setup.dataMap)
    decreases |obs|
  {
    var n := |obs| - 1;
    ObsEventsLength(setup, traj, obs[..n], recno);
    if i < n {
      ObsEventsAt(setup, traj, obs[..n], recno, i);
      assert obs[..n][i] == obs[i];
    }
  }

  /** One more observation appends its tracking call and its record write to
      whatever was called before. */
  lemma ObsEventsSnoc(before: seq<Event>, setup: Setup, traj: Trajectory, obs: seq<PointFeature>, i: nat, recno: int)
    requires i < |obs|
    ensures before + ObsEvents(setup, traj, obs[..i + 1], recno)
         == (before + ObsEvents(setup, traj, obs[..i], recno)) + ObsCalls(setup, traj, obs[i], recno + i)
  {
    assert obs[..i + 1][..i] == obs[..i];
  }

  /** The calls for a whole trajectory are those for its observations followed
      by its summary record. */
  lemma TrajectoryEventsSplit(before: seq<Event>, setup: Setup, traj: Trajectory, obsRecno: int, trajRecno: int,
                              idStrlen: int, featureStruct: Option<string>, featureVarMap: set<string>)
    ensures before + TrajectoryEvents(setup, traj, obsRecno, trajRecno, idStrlen, featureStruct, featureVarMap)
         == (before + ObsEvents(setup, traj, traj.obs[..|traj.obs|], obsRecno))
            + [SummaryEvent(setup.names, traj, |traj.obs|, idStrlen, trajRecno, featureStruct, featureVarMap)]
  {
    assert traj.obs[..|traj.obs|] == traj.obs;
  }

  /** Record numbers of a run of observations: consecutive from recno in the
      observation stream, none in the feature stream. */
  lemma {:induction false} ObsEventsRecnos(setup: Setup, traj: Trajectory, obs: seq<PointFeature>, recno: int)
    ensures Recnos(ObsEvents(setup, traj, obs, recno), true) == Span(recno, |obs|)
    ensures Recnos(ObsEvents(setup, traj, obs, recno), false) == []
    decreases |obs|
  {
    if obs != [] {
      var n := |obs| - 1;
      var front := ObsEvents(setup, traj, obs[..n], recno);
      var last := ObsCalls(setup, traj, obs[n], recno + n);
      ObsEventsRecnos(setup, traj, obs[..n], recno);
      RecnosAppend(front, last, true);
      RecnosAppend(front, last, false);
      assert last[..1] == [last[0]] && last[..1][..0] == [];
      assert Recnos(last[..1], true) == [] && Recnos(last[..1], false) == [];
      assert Recnos(last, true) == [recno + n];
      assert Recnos(last, false) == [];
    }
  }

  /** One writeTrajectory: every observation record is written before the
      single summary record, which comes last. */
  lemma TrajectoryEventsOrder(setup: Setup, traj: Trajectory, obsRecno: int, trajRecno: int, idStrlen: int,
                              featureStruct: Option<string>, featureVarMap: set<string>)
    ensures var e := TrajectoryEvents(setup, traj, obsRecno, trajRecno, idStrlen, featureStruct, featureVarMap);
      && |e| == 2 * |traj.obs| + 1
      && e[|e| - 1] == Written(FeatureStruct(featureStruct), trajRecno,
                               SummaryRecord(setup.names, traj, |traj.obs|, idStrlen), featureVarMap)
      && (forall k :: 0 <= k < |e| - 1 ==> e[k].Tracked? || e[k].target == ObsRecord)
  {
    var obsEvents := ObsEvents(setup, traj, traj.obs, obsRecno);
    var e := TrajectoryEvents(setup, traj, obsRecno, trajRecno, idStrlen, featureStruct, featureVarMap);
    ObsEventsLength(setup, traj, traj.obs, obsRecno);
    forall k | 0 <= k < |e| - 1 ensures e[k].Tracked? || e[k].target == ObsRecord {
      assert e[k] == obsEvents[k];
      ObsEventsAt(setup, traj, traj.obs, obsRecno, k / 2);
    }
  }

  /** One writeTrajectory advances the observation stream by one record per
      observation, numbered on from obsRecno, and the feature stream by exactly
      the one record trajRecno. */
  lemma TrajectoryEventsRecnos(setup: Setup, traj: Trajectory, obsRecno: int, trajRecno: int, idStrlen: int,
                               featureStruct: Option<string>, featureVarMap: set<string>)
    ensures var e := TrajectoryEvents(setup, traj, obsRecno, trajRecno, idStrlen, featureStruct, featureVarMap);
      && Recnos(e, true) == Span(obsRecno, |traj.obs|)
      && Recnos(e, false) == [trajRecno]
  {
    var obsEvents := ObsEvents(setup, traj, traj.obs, obsRecno);
    ObsEventsRecnos(setup, traj, traj.obs, obsRecno);
    var summary := SummaryEvent(setup.names, traj, |traj.obs|, idStrlen, trajRecno, featureStruct, featureVarMap);
    RecnosSingle(summary, true);
    RecnosSingle(summary, false);
    RecnosAppend(obsEvents, [summary], true);
    RecnosAppend(obsEvents, [summary], false);
  }

  /** The observation record reads time, latitude and longitude (and altitude
      when altitude units are declared) from the observation, whatever its own
      data holds under those names; its other members come from its own data,
      and no name occurs twice. */
  lemma ObsRecordContents(setup: Setup, traj: Trajectory, pf: PointFeature)
    requires DistinctNames(ObsCoords(setup, traj, pf))
    ensures var r := Composite(ObsCoords(setup, traj, pf), pf.featureData);
      && DistinctNames(r)
      && Lookup(r, traj.timeName) == Some(Double(pf.time))
      && Lookup(r, setup.names.latName) == Some(Double(pf.lat))
      && Lookup(r, setup.names.lonName) == Some(Double(pf.lon))
      && (setup.altUnits.Some? ==> Lookup(r, traj.altName) == Some(Double(pf.alt)))
      && (forall n :: n !in NameSet(ObsCoords(setup, traj, pf)) ==> Lookup(r, n) == Lookup(pf.featureData, n))
  {
    var c := ObsCoords(setup, traj, pf);
    var r := Composite(c, pf.featureData);
    forall n ensures Lookup(r, n) == if n in NameSet(c) then Lookup(c, n) else Lookup(pf.featureData, n) {
      CompositeLookup(c, pf.featureData, n);
    }
    LookupDistinct(c, c[0]);
    LookupDistinct(c, c[1]);
    LookupDistinct(c, c[2]);
    NameSetHas(c, 0);
    NameSetHas(c, 1);
    NameSetHas(c, 2);
    if setup.altUnits.Some? {
      LookupDistinct(c, c[3]);
      NameSetHas(c, 3);
    }
  }

  /** Without altitude units the writer supplies no altitude: an altitude name
      distinct from the other coordinates is read from the observation's data. */
  lemma ObsRecordWithoutAltitude(setup: Setup, traj: Trajectory, pf: PointFeature)
    requires setup.altUnits.None?
    requires traj.altName != traj.timeName && traj.altName != setup.names.latName && traj.altName != setup.names.lonName
    ensures Lookup(Composite(ObsCoords(setup, traj, pf), pf.featureData), traj.altName) == Lookup(pf.featureData, traj.altName)
  {
    CompositeLookup(ObsCoords(setup, traj, pf), pf.featureData, traj.altName);
  }

  /** The summary record carries the trimmed trajectory name (declared with
      width id_strlen) and the observation count, whatever the trajectory's own
      data holds under those names; every other name is read from that data. */
  lemma SummaryRecordContents(names: Names, traj: Trajectory, nobs: int, idStrlen: int)
    requires names.trajIdName != names.numberOfObsName
    ensures var r := Composite(SummaryCoords(names, traj, nobs, idStrlen), traj.featureData);
      && DistinctNames(r)
      && Lookup(r, names.trajIdName) == Some(Chars(Trim(traj.name), idStrlen))
      && Lookup(r, names.numberOfObsName) == Some(Int(nobs))
      && (forall n :: n != names.trajIdName && n != names.numberOfObsName ==>
            Lookup(r, n) == Lookup(traj.featureData, n))
  {
    var c := SummaryCoords(names, traj, nobs, idStrlen);
    var r := Composite(c, traj.featureData);
    assert NameSet(c) == {names.trajIdName, names.numberOfObsName} by {
      assert c[1..][1..] == [];
    }
    forall n ensures Lookup(r, n) == if n in NameSet(c) then Lookup(c, n) else Lookup(traj.featureData, n) {
      CompositeLookup(c, traj.featureData, n);
    }
  }

  // ---------------------------------------------------------------------------
  // The writer

  class WriterCFTrajectoryCollection {
    const setup: Setup
    /** The file's global attributes by name; adding an attribute replaces
        any earlier one of the same name. */
    var globalAttributes: map<string, string>
    /** Width of the trajectory identifier; a base-class field. */
    var idStrlen: int
    var obsRecno: int
    var trajRecno: int
    /** Names of the flat feature-level variables (classic model). */
    var featureVarMap: set<string>
    /** The feature-level structure handle (extended model), else None. */
    var featureStruct: Option<string>
    /** A base-class field that writeHeader sets. */
    var altitudeCoordinateName: string
    /** What writeHeader hands on to the base class's writeHeader. */
    var headerCoords: seq<VarDecl>
    var headerFeatureData: seq<Record>
    var dimensions: seq<Dimension>
    var featureSchema: FeatureSchema
    /** The calls made on the base class so far. */
    var events: seq<Event>

    /** Each counter is the number of records written to its stream so far, and
        those records were numbered 0, 1, 2, ... in the order written. */
    ghost predicate Valid()
      reads this
    {
      0 <= obsRecno && 0 <= trajRecno && Numbered(events, obsRecno, trajRecno)
    }

    constructor (setup: Setup, globalAtts: map<string, string>, idStrlen: int, altitudeCoordinateName: string)
      ensures Valid()
      ensures this.setup == setup && this.idStrlen == idStrlen
      ensures this.altitudeCoordinateName == altitudeCoordinateName
      ensures "featureType" in globalAttributes && globalAttributes["featureType"] == "trajectory"
      ensures "DSG_representation" in globalAttributes
      ensures globalAttributes["DSG_representation"] == "Contiguous ragged array representation of trajectories, H.4.3"
      ensures forall n :: n != "featureType" && n != "DSG_representation" ==>
        (n in globalAttributes <==> n in globalAtts) && (n in globalAtts ==> globalAttributes[n] == globalAtts[n])
      ensures globalAttributes.Keys == globalAtts.Keys + {"featureType", "DSG_representation"}
      ensures obsRecno == 0 && trajRecno == 0 && events == []
      ensures featureVarMap == {} && featureStruct == None && featureSchema == Undeclared
      ensures headerCoords == [] && headerFeatureData == [] && dimensions == []
    {
      this.setup := setup;
      this.idStrlen := idStrlen;
      this.altitudeCoordinateName := altitudeCoordinateName;
      globalAttributes := globalAtts["featureType" := "trajectory"]
        ["DSG_representation" := "Contiguous ragged array representation of trajectories, H.4.3"];
      obsRecno, trajRecno, events := 0, 0, [];
      featureVarMap, featureStruct, featureSchema := {}, None, Undeclared;
      headerCoords, headerFeatureData, dimensions := [], [], [];
    }

    /** The base class's bounding-box tracking, recorded as a call. */
    method TrackBB(lat: real, lon: real, time: real)
      modifies this`events
      ensures events == old(events) + [Tracked(lat, lon, time)]
    {
      events := events + [Tracked(lat, lon, time)];
    }

    /** The base class's record write: the record goes to the target and the
        next record number is the given one plus one. */
    method WriteStructureData(recno: int, target: Target, record: CompositeData, filter: set<string>) returns (next: int)
      modifies this`events
      ensures events == old(events) + [Written(target, recno, record, filter)]
      ensures next == recno + 1
    {
      events := events + [Written(target, recno, record, filter)];
      next := recno + 1;
    }

    method WriteTrajectory(traj: Trajectory) returns (count: int)
      requires Valid()
      modifies this`idStrlen, this`events, this`obsRecno, this`trajRecno
      ensures Valid()
      ensures idStrlen == if old(idStrlen) == 0 then |traj.name| * 2 else old(idStrlen)
      ensures count == |traj.obs|
      ensures obsRecno == old(obsRecno) + count && trajRecno == old(trajRecno) + 1
      ensures events == old(events)
        + TrajectoryEvents(setup, traj, old(obsRecno), old(trajRecno), idStrlen, featureStruct, featureVarMap)
    {
      if idStrlen == 0 {
        idStrlen := |traj.name| * 2;
      }
      ghost var strlen := idStrlen;
      count := 0;
      for i := 0 to |traj.obs|
        invariant Valid()
        invariant idStrlen == strlen && trajRecno == old(trajRecno)
        invariant count == i && obsRecno == old(obsRecno) + i
        invariant events == old(events) + ObsEvents(setup, traj, traj.obs[..i], old(obsRecno))
      {
        WriteObsData(traj, traj.obs[i]);
        count := count + 1;
        ObsEventsSnoc(old(events), setup, traj, traj.obs, i, old(obsRecno));
      }
      TrajectoryEventsSplit(old(events), setup, traj, old(obsRecno), old(trajRecno), idStrlen, featureStruct, featureVarMap);
      WriteTrajectoryData(traj, count);
    }

    method WriteHeader(trajectories: seq<Trajectory>)
      modifies this`headerCoords, this`headerFeatureData, this`altitudeCoordinateName
      ensures headerCoords == HeaderCoords(setup.names, trajectories, setup.timeUnit, setup.altUnits)
      ensures headerFeatureData == FeatureDataOf(trajectories)
      ensures altitudeCoordinateName ==
        if setup.altUnits.Some? && trajectories != [] then trajectories[|trajectories| - 1].altName
        else old(altitudeCoordinateName)
    {
      var coords: seq<VarDecl> := [];
      var trajectoryData: seq<Record> := [];
      for i := 0 to |trajectories|
        invariant coords == TrajectoryCoords(trajectories[..i], setup.timeUnit, setup.altUnits)
        invariant trajectoryData == FeatureDataOf(trajectories[..i])
        invariant altitudeCoordinateName ==
          if setup.altUnits.Some? && i > 0 then trajectories[i - 1].altName
          else old(altitudeCoordinateName)
      {
        var trajectory := trajectories[i];
        assert trajectories[..i + 1][..i] == trajectories[..i];
        trajectoryData := trajectoryData + [trajectory.featureData];
        coords := coords + [TimeVar(trajectory, setup.timeUnit)];
        if setup.altUnits.Some? {
          altitudeCoordinateName := trajectory.altName;
          coords := coords + [AltVar(trajectory, setup.altUnits.value)];
        }
      }
      assert trajectories[..|trajectories|] == trajectories;
      coords := coords + [
        VarDecl(setup.names.latName, LatitudeCoordinate),
        VarDecl(setup.names.lonName, LongitudeCoordinate)];
      headerCoords, headerFeatureData := coords, trajectoryData;
    }

    method MakeFeatureVariables(featureDataStructs: seq<Record>, isExtended: bool)
      modifies this`dimensions, this`featureSchema, this`featureVarMap
      ensures dimensions == old(dimensions) + [Dimension(setup.names.trajDimName, setup.nfeatures)]
      ensures var fv := FeatureVarList(setup.names, idStrlen, setup.dataVars, featureDataStructs);
        && featureSchema == (if isExtended
                             then ExtendedStructure(setup.names.trajStructName, setup.names.trajDimName, fv)
                             else ClassicVariables(Dimension(setup.names.trajDimName, setup.nfeatures), fv))
        && featureVarMap == (if isExtended then old(featureVarMap) else old(featureVarMap) + VarNames(fv))
    {
      var trajDim := Dimension(setup.names.trajDimName, setup.nfeatures);
      dimensions := dimensions + [trajDim];
      var featureVars := [IdVar(setup.names, idStrlen), CountVar(setup.names)];
      for i := 0 to |featureDataStructs|
        modifies {}
        invariant featureVars == [IdVar(setup.names, idStrlen), CountVar(setup.names)]
          + MatchedVars(setup.dataVars, featureDataStructs[..i])
      {
        featureVars := AddMatchedMembers(featureVars, featureDataStructs[i]);
        MatchedVarsSnoc(setup.dataVars, featureDataStructs, i);
      }
      assert featureDataStructs[..|featureDataStructs|] == featureDataStructs;
      if isExtended {
        featureSchema := ExtendedStructure(setup.names.trajStructName, setup.names.trajDimName, featureVars);
      } else {
        featureSchema := ClassicVariables(trajDim, featureVars);
        featureVarMap := featureVarMap + VarNames(featureVars);
      }
    }

    /** The inner loop of makeFeatureVariables: each member of the record that
        names a catalog variable adds that variable, in member order. */
    method AddMatchedMembers(featureVars: seq<VarDecl>, featureData: Record) returns (extended: seq<VarDecl>)
      ensures extended == featureVars + MatchedMembers(setup.dataVars, featureData)
    {
      extended := featureVars;
      for j := 0 to |featureData|
        invariant extended == featureVars + MatchedMembers(setup.dataVars, featureData[..j])
      {
        var dv := FindDataVar(setup.dataVars, featureData[j].name);
        if dv.Some? {
          extended := extended + [dv.value];
        }
        MatchedMembersSnoc(setup.dataVars, featureData, j);
      }
      assert featureData[..|featureData|] == featureData;
    }

    method FinishBuilding()
      modifies this`featureStruct
      ensures featureStruct ==
        if featureSchema.ExtendedStructure? && featureSchema.structName == setup.names.trajStructName
        then Some(setup.names.trajStructName) else None
    {
      featureStruct := FindStructure(featureSchema, setup.names.trajStructName);
    }

    method WriteTrajectoryData(traj: Trajectory, nobs: int)
      requires Valid()
      modifies this`events, this`trajRecno
      ensures Valid()
      ensures trajRecno == old(trajRecno) + 1
      ensures events == old(events)
        + [SummaryEvent(setup.names, traj, nobs, idStrlen, old(trajRecno), featureStruct, featureVarMap)]
    {
      var profileCoords := [
        Member(setup.names.trajIdName, Chars(Trim(traj.name), idStrlen)),
        Member(setup.names.numberOfObsName, Int(nobs))];
      // coordinates first, so that they take precedence
      var sdall := CompositeData(profileCoords, traj.featureData);
      var written := [Written(FeatureStruct(featureStruct), trajRecno, sdall, featureVarMap)];
      NumberedFeature(events, obsRecno, trajRecno, written[0]);
      trajRecno := WriteStructureData(trajRecno, FeatureStruct(featureStruct), sdall, featureVarMap);
    }

    method WriteObsData(traj: Trajectory, pf: PointFeature)
      requires Valid()
      modifies this`events, this`obsRecno
      ensures Valid()
      ensures obsRecno == old(obsRecno) + 1
      ensures events == old(events) + ObsCalls(setup, traj, pf, old(obsRecno))
    {
      TrackBB(pf.lat, pf.lon, pf.time);
      var coords := [
        Member(traj.timeName, Double(pf.time)),
        Member(setup.names.latName, Double(pf.lat)),
        Member(setup.names.lonName, Double(pf.lon))];
      if setup.altUnits.Some? {
        coords := coords + [Member(traj.altName, Double(pf.alt))];
      }
      assert coords == ObsCoords(setup, traj, pf);
      // coordinates first, so that they take precedence
      var sdall := CompositeData(coords, pf.featureData);
      obsRecno := WriteStructureData(obsRecno, ObsRecord, sdall, setup.dataMap);
      NumberedObs(old(events), old(obsRecno), trajRecno, Tracked(pf.lat, pf.lon, pf.time),
                  Written(ObsRecord, old(obsRecno), sdall, setup.dataMap));
    }
  }

  /** Two trajectories, "T1" with three observations and "T22" with one, written
      in order by a fresh writer: the identifier width is fixed by the first name
      (4) and kept for the longer second name, and four observation records and
      two summary records are written. */
  method EndToEndScenario(setup: Setup, p: PointFeature, d: Record)
    returns (counts: seq<int>, idStrlen: int, obsRecords: int, trajRecords: int)
    ensures counts == [3, 1] && idStrlen == 4 && obsRecords == 4 && trajRecords == 2
  {
    var w := new WriterCFTrajectoryCollection(setup, map[], 0, "");
    var n1 := w.WriteTrajectory(Trajectory("T1", "time", "alt", d, [p, p, p]));
    var n2 := w.WriteTrajectory(Trajectory("T22", "time", "alt", d, [p]));
    counts, idStrlen, obsRecords, trajRecords := [n1, n2], w.idStrlen, w.obsRecno, w.trajRecno;
  }

  /** The header is built before any trajectory is written: a writer whose
      id_strlen is still 0 declares the identifier with width 0, and the first
      trajectory, "AB", then sets id_strlen to 4, the width its summary record
      carries. An empty name leaves id_strlen at 0. */
  method HeaderWidthScenario(setup: Setup, d: Record)
    returns (declared: VarDecl, afterEmpty: int, afterFirst: int)
    ensures declared == VarDecl(setup.names.trajIdName, TrajectoryId(0))
    ensures afterEmpty == 0 && afterFirst == 4
  {
    var w := new WriterCFTrajectoryCollection(setup, map[], 0, "");
    w.MakeFeatureVariables([d], false);
    declared := w.featureSchema.vars[0];
    var _ := w.WriteTrajectory(Trajectory("", "time", "alt", d, []));
    afterEmpty := w.idStrlen;
    var _ := w.WriteTrajectory(Trajectory("AB", "time", "alt", d, []));
    afterFirst := w.idStrlen;
  }
}
