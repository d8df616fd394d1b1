/** Comparing socket addresses. */
module Sockaddrs {

  /** An address as the kernel structures hold it. A path has the fixed length of its field. */
  datatype Sockaddr =
    | V4(port: nat, host: nat)
    | V6(port: nat, bytes: seq<nat>, flow: nat, scope: nat)
    | Unix(path: string)

  /** What is compared: the flow label and the scope of an IPv6 address are not. */
  datatype Endpoint = At4(port: nat, host: nat) | At6(port: nat, bytes: seq<nat>) | AtPath(path: string)

  function Identity(a: Sockaddr, withPort: bool): Endpoint {
    match a
    case V4(port, host) => At4(if withPort then port else 0, host)
    case V6(port, bytes, _, _) => At6(if withPort then port else 0, bytes)
    case Unix(path) => AtPath(path)
  }

  /** Do both name the same endpoint, and the same port if that matters? */
  predicate SamePlace(a: Sockaddr, b: Sockaddr, withPort: bool) {
    || (a.V4? && b.V4? && a.host == b.host && (withPort ==> a.port == b.port))
    || (a.V6? && b.V6? && a.bytes == b.bytes && (withPort ==> a.port == b.port))
    || (a.Unix? && b.Unix? && a.path == b.path)
  }

  /** True for equal addresses. */
  function CmpSockaddr(a: Sockaddr, b: Sockaddr, cmpPort: bool): (same: bool)
    ensures same <==> Identity(a, cmpPort) == Identity(b, cmpPort)
    ensures same <==> SamePlace(a, b, cmpPort)
  {
    if a.V6? != b.V6? || a.Unix? != b.Unix? then false
    else if a.V6? then !(cmpPort && a.port != b.port) && a.bytes == b.bytes
    else if a.Unix? then a.path == b.path
    else !(cmpPort && a.port != b.port) && a.host == b.host
  }

  lemma IdentityIs(a: Sockaddr, b: Sockaddr, withPort: bool)
    ensures Identity(a, withPort) == Identity(b, withPort) <==> SamePlace(a, b, withPort)
  {
  }
}
