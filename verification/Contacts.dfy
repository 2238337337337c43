/** What queue rotation and key pinning both know of a contact. */
module Contacts {
  datatype Mode = Regular | Anonymous

  datatype Status = Active | PendingInvite

  /** A minted queue is random, a pair queue is a hash of both DIDs; neither is ever mistaken for the other. */
  datatype Queue = Minted(hex: string) | Pair(recipient: string, sender: string)
}
