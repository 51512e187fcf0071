/** An optional value, used for the crawl request's `url` field (which may be
    absent) and for "no match here" results of the email scanner. */
module Wrappers {

  datatype Option<+T> = None | Some(value: T)

}
