/**
 The photo input's change handler: at most 10 MiB, and an accepted file is
 handed on as the browser's data URL of its bytes, unchanged. There is no
 resizing, background compositing or re-encoding on the way.
 */
module FileUpload {
  import opened Types

  /** 10 MiB; a file of exactly this size is still accepted. */
  const MaxFileBytes: nat := 10 * 1024 * 1024

  /**
   What the file input reports: nothing chosen, or a file of `size` bytes
   whose `readAsDataURL` result is `dataUrl` (delivered in one piece).
   */
  datatype FileChoice = NoFile | Chosen(size: nat, dataUrl: string)

  /** `handleFileChange`: the value passed to `onUpload`, or None when it is not called. */
  function HandleFileChange(choice: FileChoice): (r: Option<string>)
    ensures r.Some? <==> choice.Chosen? && choice.size <= MaxFileBytes
    ensures r.Some? ==> r.value == choice.dataUrl
  {
    match choice
    case NoFile => None
    case Chosen(size, url) => if size > MaxFileBytes then None else Some(url)
  }

  /** The limit is inclusive: 10 MiB passes, one byte more does not. */
  lemma SizeLimitBoundary(url: string)
    ensures MaxFileBytes == 10485760
    ensures HandleFileChange(Chosen(MaxFileBytes, url)) == Some(url)
    ensures HandleFileChange(Chosen(MaxFileBytes + 1, url)) == None
  {
  }
}
