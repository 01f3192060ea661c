/**
 * `checkKeys` (`keyPinning.ts`): the verdict the certificate verification
 * callback hands back to the rendering host for a server certificate.
 * 0 accepts the certificate, -2 rejects it, -3 defers to the host's own check.
 */
module KeyPinning {
  import opened UrlTests

  const Accept: int := 0
  const Reject: int := -2
  const UseDefault: int := -3

  /**
   * `checkKeys` for a request to `hostname` whose certificate's public key has
   * the base64 SHA-256 digest `keyHash` (of its SPKI DER export), with
   * `pins` the pinned digests `CERT_PROTON_ME`.
   */
  function CheckKeys(t: UrlTests, pins: seq<string>, isPackaged: bool, isProd: bool, hostname: string, keyHash: string): (r: int)
    ensures r in {Accept, Reject, UseDefault}
    ensures r == UseDefault <==> !t.isHostAllowed(hostname)
    ensures r == Accept <==> t.isHostAllowed(hostname) && (!isPackaged || !isProd || keyHash in pins)
    ensures r == Reject <==> t.isHostAllowed(hostname) && isPackaged && isProd && keyHash !in pins
  {
    if t.isHostAllowed(hostname) then
      if !isPackaged || !isProd then Accept
      else if keyHash in pins then Accept
      else Reject
    else UseDefault
  }

  /** Pinning more digests never turns an accepted certificate into a rejected one. */
  lemma MorePinsAcceptMore(t: UrlTests, pins: seq<string>, more: seq<string>, isPackaged: bool, isProd: bool, hostname: string, keyHash: string)
    requires forall h :: h in pins ==> h in more
    ensures CheckKeys(t, pins, isPackaged, isProd, hostname, keyHash) == Accept ==>
              CheckKeys(t, more, isPackaged, isProd, hostname, keyHash) == Accept
  {
  }
}
