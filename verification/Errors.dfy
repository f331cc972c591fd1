/** The exceptions the client raises, one constructor per PHP exception class. */
module Errors {

  datatype Error =
    | InvalidArgument(message: string)  // \InvalidArgumentException
    | Runtime(message: string)          // \RuntimeException (failed login)
    | BadResponse                       // ProxmoxVE\Exception\BadResponseException, raised by the transport
}
