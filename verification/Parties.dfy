/** The two ends of a conversation. */
module Parties {

  datatype Party = Alice | Bob

  function Other(p: Party): Party {
    if p == Alice then Bob else Alice
  }
}
