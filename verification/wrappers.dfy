/**
 * Failure-carrying wrappers used throughout the model. Two suffice: lookups
 * that can miss (a board cell, a seat, a peer id) give an Option, and the
 * reducer gives a Result whose failure names the JavaScript fault. Every
 * caller matches on the constructor, so no combinators are defined.
 */
module Wrappers {

  /** A value that may be absent; stands for JavaScript's `null`/`undefined`. */
  datatype Option<+T> = None | Some(value: T)

  /** Either a computed value or the reason the computation has no value. */
  datatype Result<+R, +E> = Success(value: R) | Failure(error: E)
}
