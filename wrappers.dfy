/** Option and Result values shared by every module of the model, and the reasons a resolution fails. */
module Wrappers {

  /** A value that may be absent; `None` plays the part of JavaScript's `null`. */
  datatype Option<+T> = None | Some(value: T)

  /** A settled resolution: `Ok` is a fulfilled promise, `Error` a rejected one with its reason. */
  datatype Result<+T> = Ok(value: T) | Error(msg: Failure)

  /** The kinds of handle a resolver dispatches on. */
  datatype Kind = SubjectKind | DocumentKind | ContainerKind | SubjectListKind

  /**
   * Why a promise is rejected. Each reason stands for the exact message `Message` gives; the
   * rejections tripledoc raises itself are summarised by `FetchFailed`.
   */
  datatype Failure =
    | FetchFailed(ref: string)
    | UnknownType(kind: Kind)
    | UnknownLocator
    | NoIdentifyingProperty
    | NoIdentifyingProperties
    | NoDocumentAclLocation
    | NoContainerAclLocation
    | AclFetchFailed
    | UndefinedAcl
    | SaveOfUndefined

  /** The message of the `Error` a rejection carries. */
  function Message(f: Failure): string {
    match f
    case FetchFailed(ref) => "Fetching " + ref + " failed."
    case UnknownType(SubjectKind) => "This type of Virtual Subject can not be processed yet."
    case UnknownType(DocumentKind) => "This type of Virtual Document can not be processed yet."
    case UnknownType(ContainerKind) => "This type of Virtual Container can not be processed yet."
    case UnknownType(SubjectListKind) => "This type of Virtual Subject List can not be processed yet."
    case UnknownLocator => "This type of Locator can not be processed yet."
    case NoIdentifyingProperty => "Please specify at least one property to identify this subject with."
    case NoIdentifyingProperties => "Please specify at least one property to identify these Subjects with."
    case NoDocumentAclLocation => "Could not find a location for the Access Control List of this Document."
    case NoContainerAclLocation => "Could not find a location for the Access Control List of this Container."
    case AclFetchFailed => "Could not fetch the Access Control List of this Document."
    // The TypeError `hasAclSettings(undefined)` raises when a descriptor has no `acl` property.
    case UndefinedAcl => "Cannot read property 'public' of undefined"
    // The TypeError of calling `save` on the `undefined` a library without local documents hands back.
    case SaveOfUndefined => "Cannot read property 'save' of undefined"
  }
}
