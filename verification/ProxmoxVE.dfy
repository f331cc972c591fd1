/**
 * The base class `ProxmoxVE`: its constants and the session token it holds.
 * The token slot itself is a field of `Proxmox.Client`.
 */
module ProxmoxVE {

  /** Seconds before a connection to the server is dropped (`TIMEOUT`). */
  const Timeout: nat := 30

  /** The `User-Agent` header value (`USER_AGENT`). */
  const UserAgent: string := "Proxmox VE API"

  /**
   * What a successful login returns: the anti-forgery token, the session
   * ticket and the user that owns them. The `AuthToken` class is not part of
   * this model; its fields are kept as opaque strings.
   */
  datatype Token = Token(csrf: string, ticket: string, username: string)
}
