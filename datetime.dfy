/** `System.DateTime`, kept opaque: the models only store and pass it along, never compute with it. */
module DateTimes {

  /** A point in time, as the count of ticks .NET keeps inside a `DateTime`. */
  datatype DateTime = DateTime(ticks: int)
}
