# CF trajectory collection writer, modelled in Dafny

This project models the writer of a CF discrete-sampling-geometry **trajectory
collection** file in the *contiguous ragged array* representation (CF
Conventions, Appendix H, section H.4.3), as netCDF-Java implements it in the
`WriterCFTrajectoryCollection` class. The model covers:

- writing one trajectory. Each point observation is tracked in the bounding box
  and then written as one record of the observation stream. After that, one
  summary record goes to the feature stream. It carries the trimmed trajectory
  name and the observation count.
- the fields the writer keeps: `id_strlen` (the identifier width), the two
  record counters `obsRecno` and `trajRecno`, `featureVarMap` and the
  feature-level structure handle. `writeTrajectory` sets `id_strlen` to twice
  the name's length while it is still 0; an empty name leaves it at 0, so a
  later trajectory sets it. The header declares the identifier with whatever
  value `id_strlen` has when `makeFeatureVariables` runs, which is before any
  trajectory is written and may be 0.
- `writeHeader`. It lists one time coordinate per trajectory, plus an
  altitude coordinate when altitude units are declared, and then latitude and
  longitude once.
- `makeFeatureVariables`. It declares the identifier variable, the count
  variable and every catalog variable that a member of a trajectory's feature
  data names, in the extended (structure) or the classic (flat) layout.
- the composite record. Coordinate members come first, so they win over a
  feature's own members of the same name.

Modules:

- `Structures` holds member records, lookup by name and the two-layer
  composite.
- `JavaStrings` holds Java's `String.trim`.
- `Features` holds trajectories and point observations.
- `TrajectorySchema` holds the variables that the header declares.
- `TrajectoryWriter` holds the writer class. The writer calls the point-writer
  base class (`trackBB`, `writeStructureData`); the class keeps those calls, in
  order, as a log of events. The base class's `writeStructureData` is taken to
  write its record at the given number and return that number plus one. Under
  that assumption the class invariant `Valid` holds: each counter equals the
  number of records written to its stream, numbered 0, 1, 2, … in order.

The code does not de-duplicate the feature-level variables. It adds a catalog
variable for every matching member of every trajectory (lines 103-108 of
`WriterCFTrajectoryCollection.java`), so two trajectories with the same
member name add that variable twice (see `TrajectorySchema.SchemaUnionExample`).

## Model

| member | source | states |
|---|---|---|
| TrajectoryWriter.WriterCFTrajectoryCollection.constructor | cdm/core/src/main/java/ucar/nc2/ft/point/writer2/WriterCFTrajectoryCollection.java:43-49 | the file's featureType is trajectory and its DSG_representation names H.4.3, replacing any given attribute of the same name; every other given attribute is kept with its value; both counters start at 0, nothing is written yet and the feature variable set is empty |
| TrajectoryWriter.WriterCFTrajectoryCollection.WriteTrajectory | cdm/core/src/main/java/ucar/nc2/ft/point/writer2/WriterCFTrajectoryCollection.java:51-61 | returns the number of observations; id_strlen becomes twice the name length exactly when it was 0 and is otherwise kept; obsRecno advances by the count and trajRecno by one; the calls made are each observation's, in iteration order, then the one summary record; the numbering invariant is kept |
| TrajectoryWriter.TrajectoryEventsOrder | cdm/core/src/main/java/ucar/nc2/ft/point/writer2/WriterCFTrajectoryCollection.java:54-59 | one trajectory makes 2n + 1 calls: every call before the last is a bounding-box update or an observation-record write, and the last is the single summary write, carrying the count n |
| TrajectoryWriter.TrajectoryEventsRecnos | cdm/core/src/main/java/ucar/nc2/ft/point/writer2/WriterCFTrajectoryCollection.java:54-59 | one trajectory writes observation records numbered obsRecno, obsRecno + 1, … (one per observation) and exactly one feature record, numbered trajRecno |
| TrajectoryWriter.ObsEventsAt | cdm/core/src/main/java/ucar/nc2/ft/point/writer2/WriterCFTrajectoryCollection.java:55-57 | observation i is first tracked (its latitude, longitude and time), then written to the observation stream as record recno + i with its composite record and the observation filter |
| TrajectoryWriter.ObsEventsRecnos | cdm/core/src/main/java/ucar/nc2/ft/point/writer2/WriterCFTrajectoryCollection.java:55-57 | a run of observations writes consecutive observation record numbers from recno and no feature record |
| TrajectoryWriter.WriterCFTrajectoryCollection.WriteObsData | cdm/core/src/main/java/ucar/nc2/ft/point/writer2/WriterCFTrajectoryCollection.java:142-157 | tracks the point before writing it; writes the coordinates layered over the observation's data as record obsRecno with the observation filter; obsRecno advances by one and trajRecno is untouched; the numbering invariant is kept |
| TrajectoryWriter.NumberedObs | cdm/core/src/main/java/ucar/nc2/ft/point/writer2/WriterCFTrajectoryCollection.java:140-156 | tracking a point and then writing observation record obsRecno keeps both streams numbered 0, 1, 2, …; only the observation count grows |
| TrajectoryWriter.ObsRecordContents | cdm/core/src/main/java/ucar/nc2/ft/point/writer2/WriterCFTrajectoryCollection.java:146-155 | in the observation record, time, latitude and longitude (and altitude when altitude units are set) are read from the observation, whatever its data holds under those names; every other name is read from the observation's data; no name occurs twice |
| TrajectoryWriter.ObsRecordWithoutAltitude | cdm/core/src/main/java/ucar/nc2/ft/point/writer2/WriterCFTrajectoryCollection.java:150-151 | without altitude units the writer supplies no altitude member: the altitude name is read from the observation's own data |
| TrajectoryWriter.WriterCFTrajectoryCollection.WriteTrajectoryData | cdm/core/src/main/java/ucar/nc2/ft/point/writer2/WriterCFTrajectoryCollection.java:127-137 | writes one record to the feature structure as record trajRecno, filtered by featureVarMap: the trimmed name (width id_strlen) and the count layered over the trajectory's data; trajRecno advances by one and obsRecno is untouched; the numbering invariant is kept |
| TrajectoryWriter.NumberedFeature | cdm/core/src/main/java/ucar/nc2/ft/point/writer2/WriterCFTrajectoryCollection.java:125-136 | writing feature record trajRecno keeps both streams numbered 0, 1, 2, …; only the feature count grows |
| TrajectoryWriter.SummaryRecordContents | cdm/core/src/main/java/ucar/nc2/ft/point/writer2/WriterCFTrajectoryCollection.java:128-135 | the summary record reads the trimmed trajectory name (declared width id_strlen) and the observation count, whatever the trajectory's data holds under those names; every other name is read from that data; no name occurs twice |
| TrajectoryWriter.SpanAt | cdm/core/src/main/java/ucar/nc2/ft/point/writer2/WriterCFTrajectoryCollection.java:136-156 | the k-th record number written in a stream is start + k: records are numbered without gaps |
| TrajectoryWriter.SpanAppend | cdm/core/src/main/java/ucar/nc2/ft/point/writer2/WriterCFTrajectoryCollection.java:136-156 | the record numbers of consecutive writes join into one gap-free run |
| TrajectoryWriter.WriterCFTrajectoryCollection.WriteHeader | cdm/core/src/main/java/ucar/nc2/ft/point/writer2/WriterCFTrajectoryCollection.java:63-87 | hands on the coordinate list described below and every trajectory's feature data, in order; with altitude units set, the altitude coordinate name becomes the last trajectory's altitude name, and otherwise it is unchanged |
| TrajectorySchema.TrajectoryCoordsLayout | cdm/core/src/main/java/ucar/nc2/ft/point/writer2/WriterCFTrajectoryCollection.java:68-79 | each trajectory contributes its time coordinate (with the file's units and calendar), followed by its altitude coordinate exactly when altitude units are declared, in trajectory order |
| TrajectorySchema.HeaderCoordsLayout | cdm/core/src/main/java/ucar/nc2/ft/point/writer2/WriterCFTrajectoryCollection.java:68-84 | the header coordinates are the per-trajectory time (and altitude) coordinates, then latitude and longitude exactly once, at the end |
| TrajectoryWriter.WriterCFTrajectoryCollection.MakeFeatureVariables | cdm/core/src/main/java/ucar/nc2/ft/point/writer2/WriterCFTrajectoryCollection.java:90-117 | adds the trajectory dimension sized by the number of features; declares the identifier, count and matched variables, as one structure over that dimension (extended) or as flat variables whose names join featureVarMap (classic) |
| TrajectoryWriter.WriterCFTrajectoryCollection.AddMatchedMembers | cdm/core/src/main/java/ucar/nc2/ft/point/writer2/WriterCFTrajectoryCollection.java:104-108 | appends, in member order, the catalog variable of each member that the catalog knows, and skips the others |
| TrajectorySchema.FeatureVarListContents | cdm/core/src/main/java/ucar/nc2/ft/point/writer2/WriterCFTrajectoryCollection.java:96-109 | the feature variable list starts with the identifier (width id_strlen), then the count (sample dimension = the record dimension); every later entry is a catalog variable that some trajectory's member names, and every such match is present |
| TrajectorySchema.MatchedMembersExact | cdm/core/src/main/java/ucar/nc2/ft/point/writer2/WriterCFTrajectoryCollection.java:104-108 | a record's matched variables are exactly the catalog variables that its members name: none invented, none lost |
| TrajectorySchema.MatchedVarsSound | cdm/core/src/main/java/ucar/nc2/ft/point/writer2/WriterCFTrajectoryCollection.java:103-109 | every matched variable is a catalog variable that a member of some trajectory names |
| TrajectorySchema.MatchedVarsComplete | cdm/core/src/main/java/ucar/nc2/ft/point/writer2/WriterCFTrajectoryCollection.java:103-109 | every member of every trajectory that the catalog knows contributes its variable: the list covers the union of all trajectories' members |
| TrajectorySchema.MatchedVarsAppend | cdm/core/src/main/java/ucar/nc2/ft/point/writer2/WriterCFTrajectoryCollection.java:103-109 | variables are collected in trajectory order: two consecutive groups contribute theirs one group after the other |
| TrajectorySchema.SchemaUnionExample | cdm/core/src/main/java/ucar/nc2/ft/point/writer2/WriterCFTrajectoryCollection.java:103-109 | trajectories with members {x} and {y} give the list id, count, x, y, though neither trajectory has both; when x and y have the same name, the variable appears twice |
| TrajectorySchema.FindDataVar | cdm/core/src/main/java/ucar/nc2/ft/point/writer2/WriterCFTrajectoryCollection.java:105-106 | the lookup finds a catalog variable with that name exactly when the catalog has one, and only such a variable |
| TrajectoryWriter.WriterCFTrajectoryCollection.FinishBuilding | cdm/core/src/main/java/ucar/nc2/ft/point/writer2/WriterCFTrajectoryCollection.java:120-123 | the feature structure handle is set exactly when the extended layout declared the trajectory structure, and is None otherwise |
| Structures.Composite | cdm/core/src/main/java/ucar/nc2/ft/point/writer2/WriterCFTrajectoryCollection.java:154-155 | a composite's member names are the union of its two layers' names, each name occurring once, and every member comes from one of the layers |
| Structures.CompositeLookup | cdm/core/src/main/java/ucar/nc2/ft/point/writer2/WriterCFTrajectoryCollection.java:133-135 | precedence: a name in the first (coordinate) layer is read from that layer, and any other name from the second |
| Structures.CompositePrefix | cdm/core/src/main/java/ucar/nc2/ft/point/writer2/WriterCFTrajectoryCollection.java:154-155 | a coordinate layer with distinct names opens the composite, unchanged and in its own order |
| Structures.PrecedenceExample | cdm/core/src/main/java/ucar/nc2/ft/point/writer2/WriterCFTrajectoryCollection.java:133-135 | {time=5} layered over {time=9, x=1} reads {time=5, x=1} |
| Structures.Lookup | cdm/core/src/main/java/ucar/nc2/ft/point/writer2/WriterCFTrajectoryCollection.java:133-135 | a lookup by name succeeds exactly when the record has a member with that name, and yields that member's value |
| JavaStrings.Trim | cdm/core/src/main/java/ucar/nc2/ft/point/writer2/WriterCFTrajectoryCollection.java:129 | trim keeps one contiguous slice of the name, removes only characters at most U+0020 around it, and leaves none of them at either end |
| JavaStrings.TrimIdempotent | cdm/core/src/main/java/ucar/nc2/ft/point/writer2/WriterCFTrajectoryCollection.java:129 | trimming an already trimmed name changes nothing |
| TrajectoryWriter.EndToEndScenario | cdm/core/src/main/java/ucar/nc2/ft/point/writer2/WriterCFTrajectoryCollection.java:51-61 | a fresh writer given "T1" (three observations) and then "T22" (one) returns counts 3 and 1, fixes id_strlen at 4 from the first name and keeps it for the longer second name, and ends with 4 observation records and 2 summary records |
| TrajectoryWriter.HeaderWidthScenario | cdm/core/src/main/java/ucar/nc2/ft/point/writer2/WriterCFTrajectoryCollection.java:52-53 | a writer whose id_strlen is 0 declares the identifier with width 0 (line 96); a trajectory named "" leaves id_strlen at 0, and the next one, "AB", sets it to 4 |

## Left out

- The base class `WriterCFPointAbstract` is not part of this model. Its
  `writeStructureData` is taken to write the record at the given number and
  return that number plus one. `trackBB` is reduced to a logged call. The
  identifier width `id_strlen`, the names, the data-variable catalog and
  `dataMap` (the filter for observation records, which the base class fills
  while building the header) enter as constructor or setup parameters;
  `dataMap` is a constant of the setup. `findDataVar` is taken to return the
  first catalog variable with that name. `addCoordinatesClassic` is taken to
  add the variables' names to `featureVarMap`. `findStructure` is taken to
  return the declared trajectory structure.
- The bounding-box arithmetic (min/max of latitude, longitude and time), the
  calendar-date conversion of the time, and `getZisPositive` are not modelled:
  floating-point and calendar code lives in other classes.
- Variable attributes other than units, calendar, width and sample dimension
  are not modelled (descriptions, `cf_role`, `positive`, latitude/longitude
  units), and neither is the on-disk netCDF layout. Values are kept as reals
  and never computed with.
- The attribute names `featureType` and `DSG_representation` are the values of
  the `CF` constants, which are not part of this model.
- I/O errors (`IOException`) are not modelled; every write succeeds.
- TrajectoryWriter.WriterCFTrajectoryCollection.WriteTrajectory: does not model
  Java's 32-bit wrap-around of `count`, of the record counters or of
  `length() * 2`; integers are unbounded.
- TrajectoryWriter.WriterCFTrajectoryCollection.WriteTrajectory: the width
  `|traj.name| * 2` counts characters, whereas Java's `length()` counts UTF-16
  code units; the two differ for names with characters outside the Basic
  Multilingual Plane.
- TrajectoryWriter.WriterCFTrajectoryCollection.constructor: what the base
  class's constructor does with `globalAtts` is not part of this model; they are
  taken to become the file's global attributes. `addAttribute` is taken to
  replace an attribute of the same name.
- TrajectoryWriter.WriterCFTrajectoryCollection.WriteObsData: each observation's
  feature collection, whose time and altitude names the observation record
  uses, is taken to be the trajectory being written, so the names are read from
  `traj.timeName` and `traj.altName`.
- TrajectoryWriter.WriterCFTrajectoryCollection.WriteTrajectoryData: the
  identifier member carries the trimmed name together with its declared width
  `id_strlen`; whether a longer name is truncated to that width is decided by
  `addMemberString` and the file writer, which are not part of this model.
- TrajectoryWriter.WriterCFTrajectoryCollection.MakeFeatureVariables: the inner
  member loop is written as the helper method `AddMatchedMembers`, with the
  same iteration.
- The test file `TestNc4IospWriting.java` exercises other writers; it is not
  part of this model.
