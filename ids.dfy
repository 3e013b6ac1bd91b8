/** Ids of chat sessions and messages. The code makes them from random UUIDs
    (and, for the thinking indicator, from the clock) and otherwise only
    stores and compares them, so they are kept abstract here. */
module Ids {
  type Uuid(==, !new)
}
