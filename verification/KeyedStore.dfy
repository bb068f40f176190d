/** What a reader of the message list would keep under a key. */
module KeyedStore {
  import opened Wrappers
  import opened Json

  /** A record and the message that holds it. */
  datatype Kept = Kept(owner: string, fields: Fields)

  /** A new key is filed under its message, a known one is overridden field by field. */
  function Filed(e: Option<Kept>, owner: string, update: Option<Fields>): Option<Kept> {
    if update.None? then e
    else if e.None? then Some(Kept(owner, update.value))
    else Some(Kept(e.value.owner, e.value.fields + update.value))
  }
}
