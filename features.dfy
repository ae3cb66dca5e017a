/**
  What the feature source hands the writer: a trajectory with its name, the names
  of its time and altitude coordinates, its feature-level data, and the finite
  sequence of point observations its iterator yields.
 */
module Features {
  import opened Structures

  /** One point observation: its time, its location and its own data members. */
  datatype PointFeature = PointFeature(
    time: real,
    lat: real,
    lon: real,
    alt: real,
    featureData: Record)

  datatype Trajectory = Trajectory(
    name: string,
    timeName: string,
    altName: string,
    featureData: Record,
    obs: seq<PointFeature>)
}
