/** Vocabulary shared by the models. */
module Common {

  datatype Option<+T> = None | Some(value: T)

  /** Adjacency rows; a person's neighbours are people. */
  type Net = seq<seq<nat>>

  ghost predicate ValidNet(net: Net) {
    forall i, k :: 0 <= i < |net| && 0 <= k < |net[i]| ==> net[i][k] < |net|
  }
}
