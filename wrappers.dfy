/** Results that carry either a value or an error, as the planner and the setters return them. */
module Wrappers {

  datatype Result<+T, +E> = Success(value: T) | Failure(error: E)
}
