/**
 * A page as the page-patching scripts find it on disk, the file system being an input.
 */
module PageFiles {
  /** Missing, present but unreadable, or present with its content and whether writing it
      back succeeds. */
  datatype PageFile = Missing | Unreadable | Present(content: string, writable: bool)
}
