/** Failure-carrying values used throughout the model in place of the exceptions
    the server throws. */
module Outcomes {

  datatype Option<+T> = None | Some(value: T)

  /** Why a connection worker gives up. Every one of these ends in the worker's
      catch block, which calls OnDisconnected. */
  datatype Fault =
    | ConnectionClosed      // a Receive returned 0 before the buffer was full
    | SendFailed            // a TCP Send wrote fewer bytes than asked
    | NegativeLength        // a frame prefix decoded to a negative int: `new byte[length]` throws
    | DecryptFailed         // RSA or AES decryption threw
    | KeyMaterialTooShort   // BlockCopy with a negative source offset throws
    | MalformedPort         // int.Parse threw
    | PortOutOfRange        // the IPEndPoint constructor threw
    | UnknownClient         // `clients[guid]` on an absent key threw
    | DatagramRaised        // a UDP SendTo threw

  datatype Result<+T> = Ok(value: T) | Err(fault: Fault)
}
