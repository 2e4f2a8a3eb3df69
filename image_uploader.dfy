/**
 * The acceptance rule of `handleFileChange` (components/ImageUploader.tsx):
 * the first selected file is handed to the application only when it is at
 * most 10 MiB and of one of four image types. The alerts become the two
 * rejection outcomes.
 */
module ImageUploader {
  import opened Wrappers

  /** What the rule reads of a selected file. */
  datatype File = File(name: string, size: nat, mimeType: string)

  /** `10 * 1024 * 1024` bytes. */
  const MaxSize: nat := 10 * 1024 * 1024

  const AcceptedTypes: seq<string> := ["image/png", "image/jpeg", "image/gif", "image/webp"]

  const SizeMessage: string := "La taille du fichier ne doit pas dépasser 10MB."
  const TypeMessage: string := "Format de fichier non supporté. Veuillez utiliser PNG, JPG, GIF ou WEBP."

  /** What happens to a selection. */
  datatype Outcome =
    | NoFile                   // nothing selected: nothing happens
    | RejectSize(message: string)
    | RejectType(message: string)
    | Accept(file: File)       // `onImageUpload(file)`

  /** `handleFileChange` on the first selected file, if any. */
  function Check(selected: Option<File>): (o: Outcome)
    ensures selected.None? <==> o.NoFile?
    ensures o.RejectSize? <==> selected.Some? && selected.value.size > MaxSize
    ensures o.RejectType? <==> selected.Some? && selected.value.size <= MaxSize
                                && selected.value.mimeType !in AcceptedTypes
    ensures o.Accept? <==> selected.Some? && selected.value.size <= MaxSize
                            && selected.value.mimeType in AcceptedTypes
    ensures o.Accept? ==> o.file == selected.value
    ensures o.RejectSize? ==> o.message == SizeMessage
    ensures o.RejectType? ==> o.message == TypeMessage
  {
    match selected
    case None => NoFile
    case Some(file) =>
      if file.size > MaxSize then RejectSize(SizeMessage)
      else if file.mimeType !in AcceptedTypes then RejectType(TypeMessage)
      else Accept(file)
  }

  /** The limit is inclusive: a file of exactly 10485760 bytes passes the size check. */
  lemma LimitIsInclusive(name: string, mimeType: string)
    ensures !Check(Some(File(name, 10485760, mimeType))).RejectSize?
    ensures Check(Some(File(name, 10485761, mimeType))).RejectSize?
  {
  }

  /** Size is checked first: an oversized file of an unsupported type is rejected for its size. */
  lemma SizeBeforeType(file: File)
    requires file.size > MaxSize && file.mimeType !in AcceptedTypes
    ensures Check(Some(file)) == RejectSize(SizeMessage)
  {
  }

  /** A file is accepted exactly when it is small enough and is a PNG, JPEG, GIF or WebP image. */
  lemma AcceptedFiles(file: File)
    ensures Check(Some(file)).Accept? <==>
              file.size <= 10485760
              && (file.mimeType == "image/png" || file.mimeType == "image/jpeg"
                  || file.mimeType == "image/gif" || file.mimeType == "image/webp")
  {
  }
}
