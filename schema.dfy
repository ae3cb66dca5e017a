/**
  The header of a contiguous ragged array trajectory file (CF Conventions,
  Appendix H, section H.4.3): the observation-level coordinate variables and the
  feature-level variable list, and the lookup of a member name in the catalog of
  declared data variables.
 */
module TrajectorySchema {
  import opened Optional
  import opened Structures
  import opened Features

  /** Names of dimensions, structures and writer-computed variables that the
      point-writer base class fixes for the whole file. */
  datatype Names = Names(
    latName: string,
    lonName: string,
    trajIdName: string,
    numberOfObsName: string,
    recordDimName: string,
    trajDimName: string,
    trajStructName: string)

  /** The file-wide time unit: its udunits string and its calendar. */
  datatype TimeUnit = TimeUnit(udUnit: string, calendar: string)

  /** What a declared variable is, with the attributes the writer gives it. */
  datatype Role =
    | TimeCoordinate(units: string, calendar: string)
    | AltitudeCoordinate(units: string)
    | LatitudeCoordinate
    | LongitudeCoordinate
    | TrajectoryId(strlen: int)
    | ObsCount(sampleDimension: string)
    | DataVariable(description: string)

  datatype VarDecl = VarDecl(name: string, role: Role)

  datatype Dimension = Dimension(name: string, length: int)

  /** How the feature-level variables were declared: as members of one structure
      over the trajectory dimension (extended model), or as flat variables sharing
      that dimension (classic model). */
  datatype FeatureSchema =
    | Undeclared
    | ExtendedStructure(structName: string, dimName: string, members: seq<VarDecl>)
    | ClassicVariables(dim: Dimension, vars: seq<VarDecl>)

  function VarNames(vs: seq<VarDecl>): set<string>
  {
    set v | v in vs :: v.name
  }

  // ---------------------------------------------------------------------------
  // Observation-level coordinates

  function TimeVar(t: Trajectory, timeUnit: TimeUnit): VarDecl
  {
    VarDecl(t.timeName, TimeCoordinate(timeUnit.udUnit, timeUnit.calendar))
  }

  function AltVar(t: Trajectory, altUnits: string): VarDecl
  {
    VarDecl(t.altName, AltitudeCoordinate(altUnits))
  }

  /** The coordinates one trajectory contributes: its time, and its altitude when
      the file declares altitude units. */
  function PerTrajectoryCoords(t: Trajectory, timeUnit: TimeUnit, altUnits: Option<string>): seq<VarDecl>
  {
    [TimeVar(t, timeUnit)] + if altUnits.Some? then [AltVar(t, altUnits.value)] else []
  }

  function TrajectoryCoords(trajs: seq<Trajectory>, timeUnit: TimeUnit, altUnits: Option<string>): seq<VarDecl>
    decreases |trajs|
  {
    if trajs == [] then []
    else TrajectoryCoords(trajs[..|trajs| - 1], timeUnit, altUnits)
         + PerTrajectoryCoords(trajs[|trajs| - 1], timeUnit, altUnits)
  }

  /** The observation-level coordinate list handed on by writeHeader. */
  function HeaderCoords(names: Names, trajs: seq<Trajectory>, timeUnit: TimeUnit, altUnits: Option<string>): seq<VarDecl>
  {
    TrajectoryCoords(trajs, timeUnit, altUnits)
    + [VarDecl(names.latName, LatitudeCoordinate), VarDecl(names.lonName, LongitudeCoordinate)]
  }

  /** One time coordinate per trajectory, followed by its altitude coordinate
      exactly when altitude units are declared, in trajectory order. */
  lemma {:induction false} TrajectoryCoordsLayout(trajs: seq<Trajectory>, timeUnit: TimeUnit, altUnits: Option<string>)
    ensures var c := TrajectoryCoords(trajs, timeUnit, altUnits);
      && |c| == (if altUnits.Some? then 2 * |trajs| else |trajs|)
      && (altUnits.None? ==> forall i :: 0 <= i < |trajs| ==> c[i] == TimeVar(trajs[i], timeUnit))
      && (altUnits.Some? ==> forall i :: 0 <= i < |trajs| ==>
            c[2 * i] == TimeVar(trajs[i], timeUnit) && c[2 * i + 1] == AltVar(trajs[i], altUnits.value))
    decreases |trajs|
  {
    if trajs != [] {
      var n := |trajs| - 1;
      TrajectoryCoordsLayout(trajs[..n], timeUnit, altUnits);
      assert forall i :: 0 <= i < n ==> trajs[..n][i] == trajs[i];
    }
  }

  /** The header coordinates: the per-trajectory time (and altitude) coordinates,
      then latitude and longitude exactly once, at the end. */
  lemma HeaderCoordsLayout(names: Names, trajs: seq<Trajectory>, timeUnit: TimeUnit, altUnits: Option<string>)
    ensures var c := HeaderCoords(names, trajs, timeUnit, altUnits);
      && |c| == (if altUnits.Some? then 2 * |trajs| else |trajs|) + 2
      && c[|c| - 2] == VarDecl(names.latName, LatitudeCoordinate)
      && c[|c| - 1] == VarDecl(names.lonName, LongitudeCoordinate)
      && (forall k :: 0 <= k < |c| - 2 ==> c[k].role.TimeCoordinate? || c[k].role.AltitudeCoordinate?)
      && (altUnits.None? ==> forall i :: 0 <= i < |trajs| ==> c[i] == TimeVar(trajs[i], timeUnit))
      && (altUnits.Some? ==> forall i :: 0 <= i < |trajs| ==>
            c[2 * i] == TimeVar(trajs[i], timeUnit) && c[2 * i + 1] == AltVar(trajs[i], altUnits.value))
  {
    var t := TrajectoryCoords(trajs, timeUnit, altUnits);
    TrajectoryCoordsLayout(trajs, timeUnit, altUnits);
    var c := HeaderCoords(names, trajs, timeUnit, altUnits);
    forall k | 0 <= k < |c| - 2 ensures c[k].role.TimeCoordinate? || c[k].role.AltitudeCoordinate? {
      assert c[k] == t[k];
      if altUnits.Some? {
        var i := k / 2;
        assert i < |trajs|;
        if k == 2 * i {
          assert t[2 * i] == TimeVar(trajs[i], timeUnit);
        } else {
          assert k == 2 * i + 1;
          assert t[2 * i + 1] == AltVar(trajs[i], altUnits.value);
        }
      } else {
        assert t[k] == TimeVar(trajs[k], timeUnit);
      }
    }
  }

  // ---------------------------------------------------------------------------
  // Feature-level variables

  /** The first variable of the data-variable catalog with the given name, or
      None when the catalog declares no such variable. */
  function FindDataVar(dataVars: seq<VarDecl>, name: string): (r: Option<VarDecl>)
    ensures r.Some? ==> r.value in dataVars && r.value.name == name
    ensures r.None? <==> forall v :: v in dataVars ==> v.name != name
  {
    if dataVars == [] then None
    else if dataVars[0].name == name then Some(dataVars[0])
    else FindDataVar(dataVars[1..], name)
  }

  /** The catalog variable a member name matches, as a list of zero or one. */
  function MatchOf(dataVars: seq<VarDecl>, name: string): seq<VarDecl>
  {
    match FindDataVar(dataVars, name)
    case Some(v) => [v]
    case None => []
  }

  /** The catalog variables matched by the members of one feature-data record,
      in member order; unmatched members are dropped. */
  function MatchedMembers(dataVars: seq<VarDecl>, featureData: Record): seq<VarDecl>
    decreases |featureData|
  {
    if featureData == [] then []
    else MatchedMembers(dataVars, featureData[..|featureData| - 1])
         + MatchOf(dataVars, featureData[|featureData| - 1].name)
  }

  /** The matched catalog variables of every feature-data record, record by record. */
  function MatchedVars(dataVars: seq<VarDecl>, featureDataStructs: seq<Record>): seq<VarDecl>
    decreases |featureDataStructs|
  {
    if featureDataStructs == [] then []
    else MatchedVars(dataVars, featureDataStructs[..|featureDataStructs| - 1])
         + MatchedMembers(dataVars, featureDataStructs[|featureDataStructs| - 1])
  }

  /** One more member extends the matches by that member's match. */
  lemma MatchedMembersSnoc(dataVars: seq<VarDecl>, featureData: Record, j: nat)
    requires j < |featureData|
    ensures MatchedMembers(dataVars, featureData[..j + 1])
         == MatchedMembers(dataVars, featureData[..j]) + MatchOf(dataVars, featureData[j].name)
  {
    assert featureData[..j + 1][..j] == featureData[..j];
  }

  /** One more record extends the matches by that record's matched members. */
  lemma MatchedVarsSnoc(dataVars: seq<VarDecl>, featureDataStructs: seq<Record>, i: nat)
    requires i < |featureDataStructs|
    ensures MatchedVars(dataVars, featureDataStructs[..i + 1])
         == MatchedVars(dataVars, featureDataStructs[..i]) + MatchedMembers(dataVars, featureDataStructs[i])
  {
    assert featureDataStructs[..i + 1][..i] == featureDataStructs[..i];
  }

  function IdVar(names: Names, idStrlen: int): VarDecl
  {
    VarDecl(names.trajIdName, TrajectoryId(idStrlen))
  }

  function CountVar(names: Names): VarDecl
  {
    VarDecl(names.numberOfObsName, ObsCount(names.recordDimName))
  }

  /** The feature-level variable list built by makeFeatureVariables. */
  function FeatureVarList(names: Names, idStrlen: int, dataVars: seq<VarDecl>, featureDataStructs: seq<Record>): seq<VarDecl>
  {
    [IdVar(names, idStrlen), CountVar(names)] + MatchedVars(dataVars, featureDataStructs)
  }

  /** Every variable matched in a record is a catalog variable named by one of
      the record's members, and every member the catalog knows is matched. */
  lemma {:induction false} MatchedMembersExact(dataVars: seq<VarDecl>, featureData: Record)
    ensures forall v :: v in MatchedMembers(dataVars, featureData) ==>
      v in dataVars && v.name in NameSet(featureData)
    ensures forall m :: (m in featureData && FindDataVar(dataVars, m.name).Some?) ==>
      FindDataVar(dataVars, m.name).value in MatchedMembers(dataVars, featureData)
    decreases |featureData|
  {
    if featureData != [] {
      var n := |featureData| - 1;
      var front := featureData[..n];
      MatchedMembersExact(dataVars, front);
      assert featureData == front + [featureData[n]];
      NameSetAppend(front, [featureData[n]]);
    }
  }

  /** Some feature-data record has a member with this name. */
  ghost predicate NamedInSome(featureDataStructs: seq<Record>, name: string)
  {
    exists i :: 0 <= i < |featureDataStructs| && name in NameSet(featureDataStructs[i])
  }

  /** Every matched variable is a catalog variable named by a member of some
      feature-data record: nothing is invented. */
  lemma {:induction false} MatchedVarsSound(dataVars: seq<VarDecl>, featureDataStructs: seq<Record>)
    ensures forall v :: v in MatchedVars(dataVars, featureDataStructs) ==>
      v in dataVars && NamedInSome(featureDataStructs, v.name)
    decreases |featureDataStructs|
  {
    if featureDataStructs != [] {
      var n := |featureDataStructs| - 1;
      var front := featureDataStructs[..n];
      MatchedVarsSound(dataVars, front);
      MatchedMembersExact(dataVars, featureDataStructs[n]);
      forall v | v in MatchedVars(dataVars, featureDataStructs)
        ensures v in dataVars && NamedInSome(featureDataStructs, v.name)
      {
        if v in MatchedVars(dataVars, front) {
          var i :| 0 <= i < |front| && v.name in NameSet(front[i]);
          assert front[i] == featureDataStructs[i];
        } else {
          assert v.name in NameSet(featureDataStructs[n]);
        }
      }
    }
  }

  /** Every member of every feature-data record that the catalog knows
      contributes its catalog variable: the list covers the union of all
      trajectories' members. */
  lemma {:induction false} MatchedVarsComplete(dataVars: seq<VarDecl>, featureDataStructs: seq<Record>)
    ensures forall i, m :: (0 <= i < |featureDataStructs| && m in featureDataStructs[i]
      && FindDataVar(dataVars, m.name).Some?) ==>
      FindDataVar(dataVars, m.name).value in MatchedVars(dataVars, featureDataStructs)
    decreases |featureDataStructs|
  {
    if featureDataStructs != [] {
      var n := |featureDataStructs| - 1;
      var front := featureDataStructs[..n];
      var all := MatchedVars(dataVars, featureDataStructs);
      assert all == MatchedVars(dataVars, front) + MatchedMembers(dataVars, featureDataStructs[n]);
      MatchedVarsComplete(dataVars, front);
      MatchedMembersExact(dataVars, featureDataStructs[n]);
      forall i, m | 0 <= i < |featureDataStructs| && m in featureDataStructs[i]
        && FindDataVar(dataVars, m.name).Some?
        ensures FindDataVar(dataVars, m.name).value in all
      {
        if i < n {
          assert front[i] == featureDataStructs[i];
          assert FindDataVar(dataVars, m.name).value in MatchedVars(dataVars, front);
        } else {
          assert FindDataVar(dataVars, m.name).value in MatchedMembers(dataVars, featureDataStructs[n]);
        }
      }
    }
  }

  /** Matching follows iteration order: the records of two consecutive groups of
      trajectories contribute their variables one group after the other. */
  lemma {:induction false} MatchedVarsAppend(dataVars: seq<VarDecl>, first: seq<Record>, second: seq<Record>)
    ensures MatchedVars(dataVars, first + second) == MatchedVars(dataVars, first) + MatchedVars(dataVars, second)
    decreases |second|
  {
    if second == [] {
      assert first + second == first;
    } else {
      var n := |second| - 1;
      var all := first + second;
      assert all[..|all| - 1] == first + second[..n];
      assert all[|all| - 1] == second[n];
      calc {
        MatchedVars(dataVars, all);
        MatchedVars(dataVars, first + second[..n]) + MatchedMembers(dataVars, second[n]);
        { MatchedVarsAppend(dataVars, first, second[..n]); }
        MatchedVars(dataVars, first) + MatchedVars(dataVars, second[..n]) + MatchedMembers(dataVars, second[n]);
      }
    }
  }

  /** The feature variable list opens with the identifier variable, whose width
      is id_strlen, and the count variable linked to the record dimension; every
      further entry is a catalog variable matched by some trajectory's member,
      and every such match is present. */
  lemma FeatureVarListContents(names: Names, idStrlen: int, dataVars: seq<VarDecl>, featureDataStructs: seq<Record>)
    ensures var fv := FeatureVarList(names, idStrlen, dataVars, featureDataStructs);
      && |fv| >= 2
      && fv[0] == VarDecl(names.trajIdName, TrajectoryId(idStrlen))
      && fv[1] == VarDecl(names.numberOfObsName, ObsCount(names.recordDimName))
      && (forall k :: 2 <= k < |fv| ==>
            fv[k] in dataVars && NamedInSome(featureDataStructs, fv[k].name))
      && (forall i, m :: (0 <= i < |featureDataStructs| && m in featureDataStructs[i]
            && FindDataVar(dataVars, m.name).Some?) ==> FindDataVar(dataVars, m.name).value in fv[2..])
  {
    var fv := FeatureVarList(names, idStrlen, dataVars, featureDataStructs);
    MatchedVarsSound(dataVars, featureDataStructs);
    MatchedVarsComplete(dataVars, featureDataStructs);
    assert fv[2..] == MatchedVars(dataVars, featureDataStructs);
    forall k | 2 <= k < |fv| ensures fv[k] in MatchedVars(dataVars, featureDataStructs) {
      assert fv[k] == fv[2..][k - 2];
    }
  }

  /** Two trajectories with feature members x and y give a feature list holding
      both x and y, though neither trajectory has both. */
  lemma SchemaUnionExample(names: Names, idStrlen: int, x: VarDecl, y: VarDecl, vx: Value, vy: Value)
    ensures FeatureVarList(names, idStrlen, [x, y], [[Member(x.name, vx)], [Member(y.name, vy)]])
      == [IdVar(names, idStrlen), CountVar(names)] + (if x.name == y.name then [x, x] else [x, y])
  {
    var a: Record := [Member(x.name, vx)];
    var b: Record := [Member(y.name, vy)];
    var dv := [x, y];
    assert FindDataVar(dv, x.name) == Some(x);
    assert FindDataVar(dv, y.name) == if x.name == y.name then Some(x) else Some(y) by {
      if x.name != y.name {
        assert dv[1..] == [y];
      }
    }
    assert a[..0] == [] && b[..0] == [];
    assert MatchedMembers(dv, a) == [x];
    assert MatchedMembers(dv, b) == if x.name == y.name then [x] else [y];
    assert [a, b][..1] == [a];
    assert [a][..0] == [];
    assert MatchedVars(dv, [a]) == [x];
  }
}
