/** Outcome types shared by every component of the storefront model. */
module Base {

  /** A value that may be absent, such as a form field the client did not send. */
  datatype Option<T> = None | Some(value: T)

  /** The ways a request handler of the storefront gives up. */
  datatype Error =
    | UserNotFound            // the e-mail carried by the session has no user record
    | StaleMenuReference      // a cart line names a menu entry the catalog no longer has
    | AlreadyReviewed         // a review for (item, user, order) exists already
    | OrderNotFound           // no order carries the requested order number
    | MissingOrderIdOrStatus  // the status update request lacks an order number or a status
    | EmptyCategoryName       // a category name has no first character to take an initial from

  /** The reply of a handler: a value, or the reason it failed. */
  datatype Result<T> = Ok(value: T) | Err(error: Error)
}
