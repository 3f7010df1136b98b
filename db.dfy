/** The outcome of a single-row database query, as the handlers see it. */
module Db {

  datatype Query<T> = Row(row: T) | NoRows | Failed
}
