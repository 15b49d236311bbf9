/** Option and Result, and the one error type every exception of the tool maps to. */
module Wrappers {

  datatype Option<+T> = None | Some(value: T)

  /** Every exception the modelled code can raise, named after its cause. */
  datatype Error =
    // PackageException
    | UnsupportedVersion(resource: string)
    | BadDependencyType(packageName: string, resource: string)
    | BadDependencyValue(packageName: string, name: string)
    | BadDependenciesProperty(title: string)
    | BadAllowHostsProperty(title: string)
    | LoopDetected
    | WrongHostForFile(resource: string)
    | NoProvider(resource: string)
    | ManifestMissing(resource: string)
    // RepositoryException
    | WrongRepositoryUrl(url: string)
    // ModuleException
    | EndTagNotFound
    | MissingIndex(id: string)
    // framework exceptions: JObject.Parse on a non-object, a failed JToken cast,
    // Dictionary.Add / JObject.Add of a present key, System.Uri, a failed download,
    // a missing file or directory, ArrayList.RemoveAt(0) on an empty list,
    // a dereference of the still-null project package, JObject.Parse on text that is not JSON
    | NotAnObject
    | InvalidCast(key: string)
    | DuplicateKey(key: string)
    | InvalidUri(resource: string)
    | DownloadFailed(url: string)
    | MissingDirectory(path: string)
    | MissingFile(path: string)
    | EmptyConfigFile
    | NoProjectPackage
    | MalformedJson(path: string)

  datatype Result<+T> = Ok(value: T) | Err(error: Error) {
    predicate IsFailure() { Err? }
    function PropagateFailure<U>(): Result<U>
      requires Err?
    {
      Err(error)
    }
    function Extract(): T
      requires Ok?
    {
      value
    }
  }
}
