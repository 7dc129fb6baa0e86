/** Attachment classification by MIME type, and the icon for each kind. */
module Attachments {
  import opened Text

  datatype AttachmentKind = ImageKind | VideoKind | AudioKind | DocumentKind

  /** The kind's name as the application spells it. */
  function KindName(k: AttachmentKind): string
  {
    match k
    case ImageKind => "image"
    case VideoKind => "video"
    case AudioKind => "audio"
    case DocumentKind => "document"
  }

  /** `getAttachmentType`: the first matching prefix wins; every other string is a document. */
  function GetAttachmentType(mimeType: string): (r: AttachmentKind)
    ensures StartsWith(mimeType, "image/") ==> r == ImageKind
    ensures !StartsWith(mimeType, "image/") && StartsWith(mimeType, "video/") ==> r == VideoKind
    ensures !StartsWith(mimeType, "image/") && !StartsWith(mimeType, "video/") && StartsWith(mimeType, "audio/") ==> r == AudioKind
    ensures r == DocumentKind <==> !StartsWith(mimeType, "image/") && !StartsWith(mimeType, "video/") && !StartsWith(mimeType, "audio/")
  {
    if StartsWith(mimeType, "image/") then ImageKind
    else if StartsWith(mimeType, "video/") then VideoKind
    else if StartsWith(mimeType, "audio/") then AudioKind
    else DocumentKind
  }

  /** The prefixes cannot overlap, so a MIME type has at most one media kind. */
  lemma PrefixesExclusive(mimeType: string)
    ensures !(StartsWith(mimeType, "image/") && StartsWith(mimeType, "video/"))
    ensures !(StartsWith(mimeType, "image/") && StartsWith(mimeType, "audio/"))
    ensures !(StartsWith(mimeType, "video/") && StartsWith(mimeType, "audio/"))
  {
  }

  datatype Icon = ImageIcon | VideoIcon | MusicIcon | FileTextIcon

  /** `getAttachmentIcon`: one icon per media kind name, the file icon for everything else. */
  function GetAttachmentIcon(typeName: string): (r: Icon)
    ensures r == FileTextIcon <==> typeName != "image" && typeName != "video" && typeName != "audio"
  {
    if typeName == "image" then ImageIcon
    else if typeName == "video" then VideoIcon
    else if typeName == "audio" then MusicIcon
    else FileTextIcon
  }

  /** The three media kinds get three different icons, none of them the file icon. */
  lemma MediaIconsDistinct()
    ensures GetAttachmentIcon("image") != GetAttachmentIcon("video")
    ensures GetAttachmentIcon("image") != GetAttachmentIcon("audio")
    ensures GetAttachmentIcon("video") != GetAttachmentIcon("audio")
    ensures GetAttachmentIcon("document") == FileTextIcon
  {
  }

  /** A classified attachment's icon: the file icon exactly for documents. */
  lemma IconOfClassified(mimeType: string)
    ensures GetAttachmentIcon(KindName(GetAttachmentType(mimeType))) == FileTextIcon
            <==> GetAttachmentType(mimeType) == DocumentKind
  {
  }
}
