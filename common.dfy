/** Failure-carrying values shared by the whole model. */
module Common {

  datatype Option<+T> = None | Some(value: T)

  datatype Result<+T, +E> = Ok(value: T) | Err(error: E)

  /** The kinds of Go `error` the volume-claim code can hand back to its caller. */
  datatype Error =
    | AlreadyExists                   // the API refused a create because the claim name is taken
    | NotFound                        // the API refused to delete a claim that is not there
    | ApiFailure(reason: string)      // any other failure reported by the orchestration API
    | MalformedMatchLabels            // "match labels is not formatted correctly"
    | TemplateFailure(reason: string) // a manifest template failed to execute
    | DecodeFailure(reason: string)   // the rendered manifest is not a valid claim object
}
