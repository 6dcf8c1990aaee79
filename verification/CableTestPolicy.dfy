/** Electrical and identity rules of the single-ended cable test. */
module CableTestPolicy {
  import opened Octets

  /** A 32-bit difference read as a signed number. */
  function SignedDifference(a: nat, b: nat): int
    requires a < U32 && b < U32
  {
    var d := (a - b) % U32;
    if d >= U32 / 2 then d - U32 else d
  }

  predicate LeaseExpired(nowMs: nat, lastPollMs: nat)
    requires nowMs < U32 && lastPollMs < U32
  {
    SignedDifference(nowMs, lastPollMs) > 3000
  }

  /**
   * The lease is judged on true elapsed time across counter wrap-around: it is expired exactly when the time since
   * the renewal, reduced to the counter, is over three seconds and below 2^31 ms. Within 2^31 ms either way that
   * is elapsed time itself, and a renewal newer than the sampled clock never counts as expired.
   */
  lemma LeaseFollowsElapsedTime(now: nat, last: nat)
    ensures LeaseExpired(now % U32, last % U32) <==> 3000 < (now - last) % U32 < U32 / 2
    ensures -0x8000_0000 <= now - last < U32 / 2 ==>
      (LeaseExpired(now % U32, last % U32) <==> now - last > 3000)
  {
    var a, b := now % U32, last % U32;
    var p, q := now / U32, last / U32;
    assert now - last == U32 * (p - q) + (a - b);
    assert (now - last) % U32 == (a - b) % U32;
  }

  predicate IsRa(voltage: real) {
    0.02 <= voltage <= 0.20
  }

  predicate IsOpen(voltage: real) {
    voltage >= 2.6
  }

  /** The contact to power, 1 or 2, for an unambiguous Ra and open pair; 0 otherwise. */
  function Contact(cc1: real, cc2: real): nat {
    if IsRa(cc1) && IsOpen(cc2) then 1
    else if IsRa(cc2) && IsOpen(cc1) then 2
    else 0
  }

  /** Cable plug bit set, reserved data role bit clear. */
  predicate ResponderHeader(header: nat) {
    header / 0x100 % 2 == 1 && header / 0x20 % 2 == 0
  }

  /** The little-endian 32-bit object at `at`. */
  function VDO(body: seq<Byte>, at: nat): nat
    requires at + 4 <= |body|
  {
    var a: nat, b: nat, c: nat, d: nat := body[at], body[at + 1], body[at + 2], body[at + 3];
    a + 0x100 * b + 0x1_0000 * c + 0x100_0000 * d
  }

  datatype CommandType = Request | ACK | NAK | BUSY

  /** The fields of a structured VDM header that the controller looks at. */
  function SVID(vdm: nat): nat { vdm / 0x1_0000 }

  predicate Structured(vdm: nat) { vdm / 0x8000 % 2 == 1 }

  function Command(vdm: nat): nat { vdm % 0x20 }

  function TypeOf(vdm: nat): CommandType {
    var t := vdm / 0x40 % 4;
    if t == 0 then Request else if t == 1 then ACK else if t == 2 then NAK else BUSY
  }

  /** A complete Discover Identity ACK of a passive or active cable. */
  predicate IdentityValid(body: seq<Byte>, pd3: bool) {
    && 20 <= |body| <= 28 && |body| % 4 == 0
    && var header := VDO(body, 0);
       var major, minor := header / 0x2000 % 4, header / 0x800 % 4;
       // The header with the four version bits masked out is 0xFF008041.
       && header - header / 0x800 % 16 * 0x800 == 0xFF00_8041
       && major <= 1 && minor <= 1 && (major == 0 ==> minor == 0)
       && var kind := VDO(body, 4) / 0x800_0000 % 8;
          kind == 3 || (kind == 4 && (!pd3 || |body| >= 24))
  }

  /** Whatever passes as an identity is a PD SID Discover Identity ACK. */
  lemma IdentitiesAreAcks(body: seq<Byte>, pd3: bool)
    requires IdentityValid(body, pd3)
    ensures var vdm := VDO(body, 0);
      SVID(vdm) == 0xFF00 && Structured(vdm) && Command(vdm) == 1 && TypeOf(vdm) == ACK
  {
    var vdm := VDO(body, 0);
    var version := vdm / 0x800 % 16;
    assert vdm == 0x1_0000 * 0xFF00 + (0x8041 + version * 0x800);
    assert vdm == 0x8000 * 0x1_FE01 + (0x41 + version * 0x800);
    assert vdm == 0x40 * (0x3FC_0201 + version * 0x20) + 1;
  }
}
