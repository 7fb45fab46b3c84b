/** Option and Result, the two ways a step of the pipeline can fail. */
module Wrappers {

  datatype Option<+T> = None | Some(value: T)

  datatype Result<+R, +E> = Success(value: R) | Failure(error: E)

  /** The errors the core raises; every other exception is folded into `ModelError`. */
  datatype Error =
    | ZipNotFound(zipPath: string)
    | FileNotFound(filePath: string)
    | ExtractionFailed(zipPath: string)
    | RootUnreadable(rootPath: string)
    | ModelError
}
