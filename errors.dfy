/** The errors the service layer and the store return. Go uses plain `error`
    values compared by their text, so each error carries the message it prints. */
module Errors {

  datatype Error =
    | UserNotFound
    | UserAlreadyExists
    | InvalidCredentials
    | InsufficientCoins
    | ItemNotFound
      /** A failure of the store's transport (connection, driver), with its text. */
    | Transport(text: string)
  {
    function Message(): string {
      match this
      case UserNotFound => "user not found"
      case UserAlreadyExists => "user already exists"
      case InvalidCredentials => "invalid credentials"
      case InsufficientCoins => "insufficient coins"
      case ItemNotFound => "item not found"
      case Transport(text) => text
    }
  }

  /** Telling errors apart by text, as callers do with `err.Error()`, cannot
      separate a missing row from a transport failure that happens to print
      the same text; every other error has its own message. */
  lemma NotFoundByMessage(e: Error)
    ensures e.Message() == "user not found" <==> e == UserNotFound || e == Transport("user not found")
  {
  }
}
