/** Values shared by the views: JavaScript's absent values and the outcome of a remote call. */
module Common {

  /** A JavaScript value that may be `undefined` or `null`. */
  datatype Option<+T> = None | Some(value: T)

  /** What a remote call (fetch, the auth provider, the profile table) resolves to:
      data on success, or the error it rejected or reported with. */
  datatype Outcome<+T> = Ok(value: T) | Err(error: string)

  /** A poem row of the poetry data store, as the list and the profile page show it. */
  datatype Poem = Poem(id: int, title: string, author: string, dynasty: string, content: string, likes: int)
}
