/** The ways an operation of the pipeline can fail. */
module Errors {

  datatype Fault =
    | Malformed       // a payload shape the parsers index into without checking
    | Transport(status: int)  // the catalog answered with a non-success status
    | InvalidSize     // a batch size that is not positive
    | ScoringFailed   // the similarity engine refused the documents
}
