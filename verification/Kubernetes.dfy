/** Values shared by every component that talks to the cluster. */
module Kubernetes {

  datatype Option<+T> = None | Some(value: T)

  /** The error classes the importer distinguishes; everything else is `Other`. */
  datatype ApiError = NotFound | Conflict | AlreadyExists | Other

  datatype Result<+T> = Ok(value: T) | Err(error: ApiError)

  /** What the adversary does to one API call. An injected error may hit a write before or after the
      write took effect. */
  datatype Fault = NoFault | Injected(error: ApiError, effective: bool)

  datatype KeyValue = KeyValue(key: string, value: string)
}
